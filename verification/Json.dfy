/**
 * The JSON the helper prints and its readers take apart: objects, arrays, texts without
 * escapes and bare words, as sections 3 to 7 of RFC 8259 write them without white space.
 */
module Json {
  import opened Outcomes

  datatype Json = Bare(word: string) | Quoted(text: string) | Array(items: Items) | Object(members: Members)

  datatype Items = NoItems | Item(first: Json, rest: Items)

  datatype Members = NoMembers | Member(name: string, value: Json, rest: Members)

  predicate WordChar(c: char) { 'a' <= c <= 'z' || '0' <= c <= '9' }

  predicate Word(s: string) { s != "" && forall i | 0 <= i < |s| :: WordChar(s[i]) }

  predicate Plain(s: string) { forall i | 0 <= i < |s| :: s[i] != '"' && s[i] != '\\' }

  predicate Clean(j: Json) {
    match j
    case Bare(word) => Word(word)
    case Quoted(text) => Plain(text)
    case Array(items) => CleanItems(items)
    case Object(members) => CleanMembers(members)
  }

  predicate CleanItems(items: Items) { items.Item? ==> Clean(items.first) && CleanItems(items.rest) }

  predicate CleanMembers(members: Members) {
    members.Member? ==> Plain(members.name) && Clean(members.value) && CleanMembers(members.rest)
  }

  // Writing.

  function Render(j: Json): string {
    match j
    case Bare(word) => word
    case Quoted(text) => "\"" + text + "\""
    case Array(items) => "[" + RenderItems(items) + "]"
    case Object(members) => "{" + RenderMembers(members) + "}"
  }

  function RenderItems(items: Items): string {
    match items
    case NoItems => ""
    case Item(first, NoItems) => Render(first)
    case Item(first, rest) => Render(first) + "," + RenderItems(rest)
  }

  function MemberText(name: string, value: string): string { "\"" + name + "\":" + value }

  function RenderMembers(members: Members): string {
    match members
    case NoMembers => ""
    case Member(name, value, NoMembers) => MemberText(name, Render(value))
    case Member(name, value, rest) => MemberText(name, Render(value)) + "," + RenderMembers(rest)
  }

  // Reading: what was read, and the text behind it.

  datatype Found<T> = Found(value: T, rest: string)

  function ReadText(s: string): (r: Option<Found<string>>)
    ensures r.Some? ==> |r.value.rest| < |s|
  {
    if s == "" || s[0] == '\\' then None
    else if s[0] == '"' then Some(Found("", s[1..]))
    else match ReadText(s[1..])
      case None => None
      case Some(found) => Some(Found([s[0]] + found.value, found.rest))
  }

  function ReadWord(s: string): (r: Found<string>)
    ensures |r.value| + |r.rest| == |s|
  {
    if s == "" || !WordChar(s[0]) then Found("", s)
    else
      var found := ReadWord(s[1..]);
      Found([s[0]] + found.value, found.rest)
  }

  function ReadValue(s: string): (r: Option<Found<Json>>)
    ensures r.Some? ==> |r.value.rest| < |s|
    decreases |s|, 0
  {
    if s == "" then None
    else if s[0] == '"' then
      match ReadText(s[1..])
      case None => None
      case Some(found) => Some(Found(Quoted(found.value), found.rest))
    else if s[0] == '[' then
      if |s| > 1 && s[1] == ']' then Some(Found(Array(NoItems), s[2..]))
      else match ReadItems(s[1..])
        case None => None
        case Some(found) => Some(Found(Array(found.value), found.rest))
    else if s[0] == '{' then
      if |s| > 1 && s[1] == '}' then Some(Found(Object(NoMembers), s[2..]))
      else match ReadMembers(s[1..])
        case None => None
        case Some(found) => Some(Found(Object(found.value), found.rest))
    else
      var found := ReadWord(s);
      if found.value == "" then None else Some(Found(Bare(found.value), found.rest))
  }

  function ReadItems(s: string): (r: Option<Found<Items>>)
    ensures r.Some? ==> |r.value.rest| < |s|
    decreases |s|, 1
  {
    match ReadValue(s)
    case None => None
    case Some(found) =>
      if found.rest == "" then None
      else if found.rest[0] == ']' then Some(Found(Item(found.value, NoItems), found.rest[1..]))
      else if found.rest[0] != ',' then None
      else match ReadItems(found.rest[1..])
        case None => None
        case Some(more) => Some(Found(Item(found.value, more.value), more.rest))
  }

  function ReadMembers(s: string): (r: Option<Found<Members>>)
    ensures r.Some? ==> |r.value.rest| < |s|
    decreases |s|, 1
  {
    if s == "" || s[0] != '"' then None
    else match ReadText(s[1..])
      case None => None
      case Some(name) =>
        if name.rest == "" || name.rest[0] != ':' then None
        else match ReadValue(name.rest[1..])
          case None => None
          case Some(found) =>
            if found.rest == "" then None
            else if found.rest[0] == '}' then Some(Found(Member(name.value, found.value, NoMembers), found.rest[1..]))
            else if found.rest[0] != ',' then None
            else match ReadMembers(found.rest[1..])
              case None => None
              case Some(more) => Some(Found(Member(name.value, found.value, more.value), more.rest))
  }

  // Reading undoes writing.

  lemma {:induction false} TextReadsBack(text: string, rest: string)
    requires Plain(text)
    ensures ReadText(text + "\"" + rest) == Some(Found(text, rest))
  {
    var s := text + "\"" + rest;
    if text == "" {
      assert s[1..] == rest;
    } else {
      TextReadsBack(text[1..], rest);
      assert text == [text[0]] + text[1..];
      assert s[1..] == text[1..] + "\"" + rest;
    }
  }

  predicate EndsWord(rest: string) { rest == "" || !WordChar(rest[0]) }

  lemma {:induction false} WordReadsBack(word: string, rest: string)
    requires EndsWord(rest) && forall i | 0 <= i < |word| :: WordChar(word[i])
    ensures ReadWord(word + rest) == Found(word, rest)
  {
    if word == "" {
      assert word + rest == rest;
    } else {
      WordReadsBack(word[1..], rest);
      assert word == [word[0]] + word[1..];
      assert (word + rest)[1..] == word[1..] + rest;
    }
  }

  lemma Starts(j: Json)
    requires Clean(j)
    ensures Render(j) != "" && Render(j)[0] !in [']', '}', ',']
  {
  }

  // One step of the reader.

  lemma ReadArray(s: string, items: Items, rest: string)
    requires s != "" && s[0] == '['
    requires if items.NoItems? then |s| > 1 && s[1] == ']' && rest == s[2..]
             else |s| > 1 && s[1] != ']' && ReadItems(s[1..]) == Some(Found(items, rest))
    ensures ReadValue(s) == Some(Found(Array(items), rest))
  {
  }

  lemma ReadObject(s: string, members: Members, rest: string)
    requires s != "" && s[0] == '{'
    requires if members.NoMembers? then |s| > 1 && s[1] == '}' && rest == s[2..]
             else |s| > 1 && s[1] != '}' && ReadMembers(s[1..]) == Some(Found(members, rest))
    ensures ReadValue(s) == Some(Found(Object(members), rest))
  {
  }

  lemma ReadItem(s: string, first: Json, behind: string, more: Items, rest: string)
    requires ReadValue(s) == Some(Found(first, behind)) && behind != ""
    requires if more.NoItems? then behind[0] == ']' && rest == behind[1..]
             else behind[0] == ',' && ReadItems(behind[1..]) == Some(Found(more, rest))
    ensures ReadItems(s) == Some(Found(Item(first, more), rest))
  {
  }

  lemma ReadMember(s: string, name: string, text: string, value: Json, behind: string, more: Members, rest: string)
    requires s != "" && s[0] == '"' && ReadText(s[1..]) == Some(Found(name, ":" + text))
    requires ReadValue(text) == Some(Found(value, behind)) && behind != ""
    requires if more.NoMembers? then behind[0] == '}' && rest == behind[1..]
             else behind[0] == ',' && ReadMembers(behind[1..]) == Some(Found(more, rest))
    ensures ReadMembers(s) == Some(Found(Member(name, value, more), rest))
  {
    assert (":" + text)[1..] == text;
  }

  /** A value is read back, and reading stops where it ends. */
  lemma {:induction false} ReadsBack(j: Json, rest: string)
    requires Clean(j) && EndsWord(rest)
    ensures ReadValue(Render(j) + rest) == Some(Found(j, rest))
    decreases j, 0
  {
    var s := Render(j) + rest;
    match j
    case Bare(word) =>
      WordReadsBack(word, rest);
    case Quoted(text) =>
      TextReadsBack(text, rest);
      assert s[1..] == text + "\"" + rest;
    case Array(items) => ArrayReadsBack(items, rest);
    case Object(members) => ObjectReadsBack(members, rest);
  }

  lemma Bracketed(open: char, text: string, close: char, rest: string)
    ensures var s := [open] + text + [close] + rest;
            && |s| > 1 && s[0] == open && s[1..] == text + [close] + rest
            && s[1] == (if text == "" then close else text[0]) && (text == "" ==> s[2..] == rest)
  {
    var s := [open] + text + [close] + rest;
    assert s == [open] + (text + [close] + rest);
  }

  lemma {:induction false} ArrayReadsBack(items: Items, rest: string)
    requires CleanItems(items)
    ensures ReadValue(Render(Array(items)) + rest) == Some(Found(Array(items), rest))
    decreases items, 2
  {
    var s, text := Render(Array(items)) + rest, RenderItems(items);
    Bracketed('[', text, ']', rest);
    assert s == ['['] + text + [']'] + rest;
    if items.Item? {
      ItemsReadBack(items, rest);
      ItemsStart(items);
    }
    hide RenderItems, ReadItems, ReadValue, Render;
    ReadArray(s, items, rest);
  }

  lemma {:induction false} ObjectReadsBack(members: Members, rest: string)
    requires CleanMembers(members)
    ensures ReadValue(Render(Object(members)) + rest) == Some(Found(Object(members), rest))
    decreases members, 2
  {
    var s, text := Render(Object(members)) + rest, RenderMembers(members);
    Bracketed('{', text, '}', rest);
    assert s == ['{'] + text + ['}'] + rest;
    if members.Member? {
      MembersReadBack(members, rest);
      MembersStart(members);
    }
    hide RenderMembers, ReadMembers, ReadValue, Render;
    ReadObject(s, members, rest);
  }

  lemma ItemsStart(items: Items)
    requires CleanItems(items) && items.Item?
    ensures RenderItems(items) != "" && RenderItems(items)[0] != ']'
  {
    Starts(items.first);
  }

  lemma MembersStart(members: Members)
    requires members.Member?
    ensures RenderMembers(members) != "" && RenderMembers(members)[0] == '"'
  {
  }

  lemma Regroups(a: string, b: string, c: string, d: string)
    ensures a + b + c + d == a + (b + (c + d))
  {
  }

  lemma RenderFirstItem(items: Items)
    requires items.Item?
    ensures RenderItems(items)
         == Render(items.first) + if items.rest.NoItems? then "" else "," + RenderItems(items.rest)
  {
    assert Render(items.first) + "," + RenderItems(items.rest)
        == Render(items.first) + ("," + RenderItems(items.rest));
  }

  lemma RenderFirstMember(members: Members)
    requires members.Member?
    ensures RenderMembers(members)
         == MemberText(members.name, Render(members.value))
            + if members.rest.NoMembers? then "" else "," + RenderMembers(members.rest)
  {
    var first := MemberText(members.name, Render(members.value));
    assert first + "," + RenderMembers(members.rest) == first + ("," + RenderMembers(members.rest));
  }

  /** What stands behind the first part of a bracketed text. */
  function Behind(more: Option<string>, close: char, rest: string): string {
    match more
    case None => [close] + rest
    case Some(text) => "," + (text + [close] + rest)
  }

  lemma BehindIs(first: string, more: Option<string>, close: char, rest: string)
    requires !WordChar(close)
    ensures var behind := Behind(more, close, rest);
            && behind != "" && EndsWord(behind)
            && (more.None? ==> behind[0] == close && behind[1..] == rest)
            && (more.Some? ==> behind[0] == ',' && behind[1..] == more.value + [close] + rest)
            && (first + if more.None? then "" else "," + more.value) + [close] + rest == first + behind
  {
    if more.Some? {
      Regroups(first, "," + more.value, [close], rest);
      Regroups("", ",", more.value, [close] + rest);
    }
  }

  function TextOfItems(items: Items): Option<string> {
    if items.NoItems? then None else Some(RenderItems(items))
  }

  function TextOfMembers(members: Members): Option<string> {
    if members.NoMembers? then None else Some(RenderMembers(members))
  }

  lemma {:induction false} ItemsReadBack(items: Items, rest: string)
    requires CleanItems(items) && items.Item?
    ensures ReadItems(RenderItems(items) + "]" + rest) == Some(Found(items, rest))
    decreases items, 1
  {
    var first, more := items.first, items.rest;
    var behind := Behind(TextOfItems(more), ']', rest);
    BehindIs(Render(first), TextOfItems(more), ']', rest);
    RenderFirstItem(items);
    if more.Item? {
      ItemsReadBack(more, rest);
    }
    ReadsBack(first, behind);
    hide ReadValue, ReadItems, Render, RenderItems, Behind;
    ReadItem(Render(first) + behind, first, behind, more, rest);
  }

  lemma {:induction false} MembersReadBack(members: Members, rest: string)
    requires CleanMembers(members) && members.Member?
    ensures ReadMembers(RenderMembers(members) + "}" + rest) == Some(Found(members, rest))
    decreases members, 1
  {
    var name, value, more := members.name, members.value, members.rest;
    var behind := Behind(TextOfMembers(more), '}', rest);
    BehindIs(MemberText(name, Render(value)), TextOfMembers(more), '}', rest);
    RenderFirstMember(members);
    if more.Member? {
      MembersReadBack(more, rest);
    }
    ReadsBack(value, behind);
    NameReadsBack(name, Render(value) + behind);
    MemberTextJoins(name, Render(value), behind);
    hide ReadValue, ReadMembers, Render, ReadText, RenderMembers, Behind, MemberText;
    ReadMember(MemberText(name, Render(value) + behind), name, Render(value) + behind, value, behind, more, rest);
  }

  lemma MemberTextJoins(name: string, value: string, behind: string)
    ensures MemberText(name, value) + behind == MemberText(name, value + behind)
  {
  }

  lemma NameReadsBack(name: string, text: string)
    requires Plain(name)
    ensures var s := MemberText(name, text);
            s != "" && s[0] == '"' && ReadText(s[1..]) == Some(Found(name, ":" + text))
  {
    var s := MemberText(name, text);
    assert s[1..] == name + "\"" + (":" + text);
    TextReadsBack(name, ":" + text);
  }

  // Objects and arrays by their parts, in order.

  datatype Field = Field(name: string, value: Json)

  function MembersOf(fields: seq<Field>): Members {
    if fields == [] then NoMembers else Member(fields[0].name, fields[0].value, MembersOf(fields[1..]))
  }

  function ItemsOf(values: seq<Json>): Items {
    if values == [] then NoItems else Item(values[0], ItemsOf(values[1..]))
  }

  function Record(fields: seq<Field>): Json { Object(MembersOf(fields)) }

  /** The fields of these names with these values. */
  function Fields(names: seq<string>, values: seq<Json>): (fields: seq<Field>)
    requires |names| == |values|
    ensures |fields| == |names| && forall i | 0 <= i < |names| :: fields[i] == Field(names[i], values[i])
  {
    seq(|names|, i requires 0 <= i < |names| => Field(names[i], values[i]))
  }

  function List(values: seq<Json>): Json { Array(ItemsOf(values)) }

  /** A list with one more part, seen from its first part and from its last. */
  lemma Commas(first: string, front: Option<string>, last: string)
    ensures first + (if front.None? then "" else "," + front.value) + "," + last
         == first + "," + if front.None? then last else front.value + "," + last
  {
    if front.Some? {
      Regroups(first, "," + front.value, ",", last);
      Regroups(first, ",", front.value, "," + last);
      Regroups("", ",", front.value, "," + last);
    }
  }

  lemma {:induction false} OneMoreMember(fields: seq<Field>, f: Field)
    ensures RenderMembers(MembersOf(fields + [f]))
         == RenderMembers(MembersOf(fields)) + (if fields == [] then "" else ",") + MemberText(f.name, Render(f.value))
    decreases |fields|
  {
    var last := MemberText(f.name, Render(f.value));
    RenderFirstMember(MembersOf(fields + [f]));
    if fields != [] {
      var first, more := MemberText(fields[0].name, Render(fields[0].value)), MembersOf(fields[1..]);
      assert (fields + [f])[1..] == fields[1..] + [f];
      OneMoreMember(fields[1..], f);
      RenderFirstMember(MembersOf(fields));
      Commas(first, TextOfMembers(more), last);
      assert more.NoMembers? ==> RenderMembers(more) + "" + last == last;
      hide Render, RenderMembers, MemberText;
      assert first + "" == first;
    } else {
      assert last + "" == last == "" + last;
    }
  }

  lemma {:induction false} OneMoreItem(values: seq<Json>, v: Json)
    ensures RenderItems(ItemsOf(values + [v]))
         == RenderItems(ItemsOf(values)) + (if values == [] then "" else ",") + Render(v)
    decreases |values|
  {
    var last := Render(v);
    RenderFirstItem(ItemsOf(values + [v]));
    if values != [] {
      var first, more := Render(values[0]), ItemsOf(values[1..]);
      assert (values + [v])[1..] == values[1..] + [v];
      OneMoreItem(values[1..], v);
      RenderFirstItem(ItemsOf(values));
      Commas(first, TextOfItems(more), last);
      assert more.NoItems? ==> RenderItems(more) + "" + last == last;
      hide Render, RenderItems;
      assert first + "" == first;
    } else {
      assert last + "" == last == "" + last;
    }
  }

  lemma {:induction false} CleanRecord(fields: seq<Field>)
    requires forall i | 0 <= i < |fields| :: Plain(fields[i].name) && Clean(fields[i].value)
    ensures Clean(Record(fields))
    decreases |fields|
  {
    if fields != [] {
      CleanRecord(fields[1..]);
    }
  }

  lemma {:induction false} CleanList(values: seq<Json>)
    requires forall i | 0 <= i < |values| :: Clean(values[i])
    ensures Clean(List(values))
    decreases |values|
  {
    if values != [] {
      CleanList(values[1..]);
    }
  }

  // Taking a value apart.

  function Elements(j: Json): seq<Json> { if j.Array? then ElementsOf(j.items) else [] }

  function ElementsOf(items: Items): seq<Json> {
    if items.NoItems? then [] else [items.first] + ElementsOf(items.rest)
  }

  function Named(members: Members, name: string): Json {
    if members.NoMembers? then Bare("null")
    else if members.name == name then members.value
    else Named(members.rest, name)
  }

  function Get(j: Json, name: string): Json { if j.Object? then Named(j.members, name) else Bare("null") }

  lemma {:induction false} ListHolds(values: seq<Json>)
    ensures Elements(List(values)) == values
    decreases |values|
  {
    if values != [] {
      ListHolds(values[1..]);
    }
  }

  lemma {:induction false} RecordHolds(fields: seq<Field>, k: nat)
    requires k < |fields| && forall i | 0 <= i < k :: fields[i].name != fields[k].name
    ensures Get(Record(fields), fields[k].name) == fields[k].value
    decreases |fields|
  {
    if k > 0 {
      RecordHolds(fields[1..], k - 1);
    }
  }

  lemma NamedValue(names: seq<string>, values: seq<Json>, k: nat)
    requires |names| == |values| && k < |names|
    requires forall i, j | 0 <= i < j < |names| :: names[i] != names[j]
    ensures Get(Record(Fields(names, values)), names[k]) == values[k]
  {
    RecordHolds(Fields(names, values), k);
  }

  /** The whole of a text is one value. */
  function Whole(s: string): Option<Json> {
    match ReadValue(s)
    case None => None
    case Some(found) => if found.rest == "" then Some(found.value) else None
  }

  lemma WholeReadsBack(j: Json)
    requires Clean(j)
    ensures Whole(Render(j)) == Some(j)
  {
    ReadsBack(j, "");
    assert Render(j) + "" == Render(j);
    hide ReadValue, Render;
  }

  // A text written field by field.

  /** `text` is `before` and an object's first `k` fields, but for the end of the last, `close`. */
  predicate Written(before: string, fields: seq<Field>, k: nat, text: string, close: string)
    requires k <= |fields|
  {
    before + "{" + RenderMembers(MembersOf(fields[..k])) == text + close
  }

  /** What stands before the first field's text, and between the texts of two fields. */
  function Opening(name: string, open: string): string { "{\"" + name + "\":" + open }

  function Link(end: string, name: string, open: string): string { end + ",\"" + name + "\":" + open }

  lemma Begins(before: string, fields: seq<Field>, link: string, open: string, text: string, close: string)
    requires fields != [] && link == before + Opening(fields[0].name, open)
    requires Render(fields[0].value) == open + text + close
    ensures Written(before, fields, 1, link + text, close)
  {
    var f := fields[0];
    assert fields[..1] == [f] && [f][1..] == [];
    var inner := RenderMembers(MembersOf(fields[..1]));
    assert inner == MemberText(f.name, Render(f.value)) by { OnlyMember(f); }
    hide Render, RenderMembers;
    assert before + "{" + inner == before + Opening(f.name, open) + text + close;
  }

  lemma OnlyMember(f: Field)
    ensures RenderMembers(MembersOf([f])) == MemberText(f.name, Render(f.value))
  {
    assert [f][1..] == [];
  }

  lemma Continues(before: string, fields: seq<Field>, k: nat, sofar: string, end: string,
                  link: string, open: string, text: string, close: string)
    requires 0 < k < |fields| && Written(before, fields, k, sofar, end)
    requires link == Link(end, fields[k].name, open)
    requires Render(fields[k].value) == open + text + close
    ensures Written(before, fields, k + 1, sofar + link + text, close)
  {
    var f := fields[k];
    assert fields[..k + 1] == fields[..k] + [f];
    OneMoreMember(fields[..k], f);
    var front := RenderMembers(MembersOf(fields[..k]));
    hide Render, RenderMembers;
    assert before + "{" + (front + "," + MemberText(f.name, open + text + close))
        == (before + "{" + front) + (",\"" + f.name + "\":" + open) + text + close;
    assert (sofar + end) + (",\"" + f.name + "\":" + open) == sofar + link;
  }

  lemma Ends(before: string, fields: seq<Field>, text: string, close: string, end: string)
    requires Written(before, fields, |fields|, text, close) && end == close + "}"
    ensures before + Render(Record(fields)) == text + end
    ensures before == "" ==> Render(Record(fields)) == text + end
  {
    assert fields[..|fields|] == fields;
    var inner := RenderMembers(MembersOf(fields));
    hide RenderMembers;
    assert before + ("{" + inner + "}") == before + "{" + inner + "}";
    assert text + close + "}" == text + (close + "}");
    assert before == "" ==> before + Render(Record(fields)) == Render(Record(fields));
  }
}

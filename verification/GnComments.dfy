/**
 * `strip_gn_comments` in tools/check-brave-services.py. What follows it reads the stripped
 * text with `splitlines` and reports line numbers, so stripping may shorten a line but
 * must not move one. A comment runs to the next newline, and `splitlines` splits at other
 * characters too.
 */
module GnComments {
  import opened Outcomes

  predicate IsQuote(c: char) { c == '"' || c == '\'' }

  /** The first newline, or the end. */
  function AfterComment(text: string): (rest: string)
    ensures |rest| <= |text| && (rest == [] || rest[0] == '\n')
    ensures text != [] && text[0] != '\n' ==> |rest| < |text|
    decreases |text|
  {
    if text == [] || text[0] == '\n' then text else AfterComment(text[1..])
  }

  function Strip(text: string, quote: Option<char>): (out: string)
    ensures |out| <= |text|
    decreases |text|
  {
    if text == [] then []
    else if quote.Some? then
      if text[0] == '\\' && 1 < |text| then text[..2] + Strip(text[2..], quote)
      else [text[0]] + Strip(text[1..], if text[0] == quote.value then None else quote)
    else if IsQuote(text[0]) then [text[0]] + Strip(text[1..], Some(text[0]))
    else if text[0] == '#' then Strip(AfterComment(text), None)
    else [text[0]] + Strip(text[1..], None)
  }

  /** The quote that is open behind a character outside any escape. */
  function QuoteAfter(quote: Option<char>, c: char): Option<char> {
    if quote.Some? then (if c == quote.value then None else quote) else if IsQuote(c) then Some(c) else None
  }

  lemma KeepsOne(text: string, index: nat, quote: Option<char>, out: string)
    requires index < |text|
    requires quote == None ==> text[index] != '#'
    requires quote.Some? ==> text[index] != '\\' || index + 1 == |text|
    ensures out + Strip(text[index..], quote)
         == out + [text[index]] + Strip(text[index + 1..], QuoteAfter(quote, text[index]))
  {
    assert text[index..][1..] == text[index + 1..];
  }

  lemma KeepsTwo(text: string, index: nat, quote: Option<char>, out: string)
    requires index + 1 < |text| && text[index] == '\\' && quote.Some?
    ensures out + Strip(text[index..], quote)
         == out + [text[index]] + [text[index + 1]] + Strip(text[index + 2..], quote)
  {
    assert text[index..][..2] == [text[index]] + [text[index + 1]] && text[index..][2..] == text[index + 2..];
  }

  method SkipComment(text: string, start: nat) returns (index: nat)
    requires start < |text| && text[start] == '#'
    ensures start < index <= |text| && text[index..] == AfterComment(text[start..])
  {
    index := start;
    while index < |text| && text[index] != '\n'
      invariant start <= index <= |text|
      invariant AfterComment(text[index..]) == AfterComment(text[start..])
    {
      index := index + 1;
    }
  }

  /** The loop of the program, over an index and the open quote. */
  method StripGnComments(text: string) returns (out: string)
    ensures out == Strip(text, None)
  {
    out := [];
    var quote: Option<char> := None;
    var index := 0;
    assert text[0..] == text && Strip([], None) == [];
    while index < |text|
      invariant 0 <= index <= |text|
      invariant out + Strip(text[index..], quote) == Strip(text, None)
    {
      var c := text[index];
      if quote.Some? {
        if c == '\\' && index + 1 < |text| {
          KeepsTwo(text, index, quote, out);
          out := out + [c] + [text[index + 1]];
          index := index + 2;
          continue;
        }
        KeepsOne(text, index, quote, out);
        out := out + [c];
        if c == quote.value {
          quote := None;
        }
        index := index + 1;
        continue;
      }
      if IsQuote(c) {
        KeepsOne(text, index, quote, out);
        quote := Some(c);
        out := out + [c];
        index := index + 1;
        continue;
      }
      if c == '#' {
        index := SkipComment(text, index);
        continue;
      }
      KeepsOne(text, index, quote, out);
      out := out + [c];
      index := index + 1;
    }
  }

  lemma {:induction false} StrippingTwice(text: string, quote: Option<char>)
    ensures Strip(Strip(text, quote), quote) == Strip(text, quote)
    decreases |text|
  {
    if text != [] {
      var c := text[0];
      if quote.Some? && c == '\\' && 1 < |text| {
        StrippingTwice(text[2..], quote);
        var out := text[..2] + Strip(text[2..], quote);
        assert out[..2] == text[..2] && out[2..] == Strip(text[2..], quote);
      } else if quote == None && c == '#' {
        StrippingTwice(AfterComment(text), None);
      } else {
        var next := QuoteAfter(quote, c);
        StrippingTwice(text[1..], next);
        var out := [c] + Strip(text[1..], next);
        assert out[1..] == Strip(text[1..], next);
        assert c == '\\' && quote.Some? ==> out == [c];
      }
    }
  }

  /** No `#` outside quotes. */
  predicate CommentFree(text: string, quote: Option<char>)
    decreases |text|
  {
    text != [] ==>
      if quote.Some? && text[0] == '\\' && 1 < |text| then CommentFree(text[2..], quote)
      else (quote.Some? || text[0] != '#') && CommentFree(text[1..], QuoteAfter(quote, text[0]))
  }

  /** No comment is left, and text is changed only when it has one. */
  lemma {:induction false} StripsExactlyComments(text: string, quote: Option<char>)
    ensures CommentFree(Strip(text, quote), quote)
    ensures Strip(text, quote) == text <==> CommentFree(text, quote)
    decreases |text|
  {
    if text != [] {
      var c := text[0];
      if quote.Some? && c == '\\' && 1 < |text| {
        StripsExactlyComments(text[2..], quote);
        var out := text[..2] + Strip(text[2..], quote);
        assert out[..2] == text[..2] && out[2..] == Strip(text[2..], quote);
        assert text == text[..2] + text[2..];
      } else if quote == None && c == '#' {
        StripsExactlyComments(AfterComment(text), None);
      } else {
        var next := QuoteAfter(quote, c);
        StripsExactlyComments(text[1..], next);
        var out := [c] + Strip(text[1..], next);
        assert out[1..] == Strip(text[1..], next);
        assert text == [c] + text[1..];
        assert c == '\\' && quote.Some? ==> out == [c];
      }
    }
  }

  // splitlines

  /** The characters that end a line for `splitlines`. */
  predicate Separator(c: char) {
    || c == '\n' || c == '\r' || c == 0x0B as char || c == 0x0C as char
    || 0x1C as char <= c <= 0x1E as char || c == 0x85 as char || c == 0x2028 as char || c == 0x2029 as char
  }

  /** The first character ends a line; of `\r\n` the second one does. */
  predicate Breaks(s: string) {
    s != [] && Separator(s[0]) && !(s[0] == '\r' && 1 < |s| && s[1] == '\n')
  }

  /** The text between line ends, with what stands behind the last one. */
  function Segments(s: string): (lines: seq<string>)
    ensures lines != []
    decreases |s|
  {
    if s == [] then [""]
    else
      var rest := Segments(s[1..]);
      if Breaks(s) then [""] + rest else [if s[0] == '\r' then rest[0] else [s[0]] + rest[0]] + rest[1..]
  }

  /** `splitlines`: nothing stands for the end of the last line. */
  function Lines(s: string): seq<string> {
    var all := Segments(s);
    if all[|all| - 1] == "" then all[..|all| - 1] else all
  }

  /** A line, or what stands before a `#` of it. */
  predicate Trimmed(out: string, line: string) {
    out <= line && (|out| < |line| ==> line[|out|] == '#')
  }

  /** The line ends before the newline that ends a comment. */
  function Inside(text: string): nat
    decreases |text|
  {
    if text == [] || text[0] == '\n' then 0 else (if Breaks(text) then 1 else 0) + Inside(text[1..])
  }

  /** A kept character starts a line of its own exactly when it ends one. */
  function Kept(out: string, rest: seq<nat>, line: nat): (lines: seq<nat>)
    requires rest != []
    ensures lines != [] && lines[0] == line
  {
    [line] + if Breaks(out) then rest else rest[1..]
  }

  /** For every line of the stripped text, the line of the text it comes from. */
  function Origins(text: string, quote: Option<char>, line: nat): (lines: seq<nat>)
    ensures lines != [] && lines[0] == line
    decreases |text|
  {
    if text == [] then [line]
    else if quote == None && text[0] == '#' then
      var rest := AfterComment(text);
      [line] + if rest == [] then [] else Origins(rest[1..], None, line + Inside(text) + 1)
    else if quote.Some? && text[0] == '\\' && 1 < |text| then
      var rest := Origins(text[2..], quote, if Breaks(text[1..]) then line + 1 else line);
      Kept(Strip(text, quote)[1..], rest, line)
    else
      var rest := Origins(text[1..], QuoteAfter(quote, text[0]), if Breaks(text) then line + 1 else line);
      Kept(Strip(text, quote), rest, line)
  }

  /** Later lines come from later lines, and each is its line with at most a comment cut off. */
  ghost predicate Traces(out: string, text: string, origins: seq<nat>, line: nat) {
    Leads(Segments(out), Segments(text), origins, line)
  }

  ghost predicate Leads(out: seq<string>, text: seq<string>, origins: seq<nat>, line: nat) {
    && |origins| == |out|
    && (forall i | 0 <= i < |origins| :: line + i <= origins[i] < line + |text|)
    && (forall i, j | 0 <= i < j < |origins| :: origins[i] < origins[j])
    && forall i | 0 <= i < |origins| :: Trimmed(out[i], text[origins[i] - line])
  }

  lemma TrimmedAlike()
    ensures Trimmed("", "")
  {
  }

  lemma BehindTraces(text: seq<string>, out: seq<string>, rest: seq<nat>, skipped: nat, line: nat)
    requires 0 < skipped <= |text| && Trimmed("", text[0]) && Leads(out, text[skipped..], rest, line + skipped)
    ensures Leads([""] + out, text, [line] + rest, line)
  {
    hide Trimmed;
    var n := [line] + rest;
    forall i | 1 <= i < |n|
      ensures line + i <= n[i] < line + |text| && n[0] < n[i] && Trimmed(([""] + out)[i], text[n[i] - line]) {
      assert n[i] == rest[i - 1] && text[n[i] - line] == text[skipped..][rest[i - 1] - (line + skipped)];
    }
    forall i, j | 1 <= i < j < |n| ensures n[i] < n[j] {
      assert n[i] == rest[i - 1] && n[j] == rest[j - 1];
    }
  }

  lemma EndedTraces(out: seq<string>, text: seq<string>, rest: seq<nat>, line: nat)
    requires Leads(out, text, rest, line + 1)
    ensures Leads([""] + out, [""] + text, [line] + rest, line)
  {
    hide Leads, Trimmed;
    TrimmedAlike();
    assert ([""] + text)[1..] == text;
    BehindTraces([""] + text, out, rest, 1, line);
  }

  lemma LaterLead(out: seq<string>, text: seq<string>, rest: seq<nat>, line: nat)
    requires out != [] && rest != [] && Leads(out, text, rest, line)
    ensures Leads(out[1..], text, rest[1..], line)
  {
    hide Trimmed;
  }

  lemma JoinedTraces(out: seq<string>, text: seq<string>, rest: seq<nat>, line: nat)
    requires out != [] && out[0] == "" && rest != []
    requires Leads(out, text, rest, line + 1)
    ensures Leads(out, [""] + text, [line] + rest[1..], line)
  {
    hide Leads;
    LaterLead(out, text, rest, line + 1);
    EndedTraces(out[1..], text, rest[1..], line);
    assert out == [""] + out[1..];
  }

  lemma GrownTraces(c: char, out: seq<string>, text: seq<string>, rest: seq<nat>, line: nat)
    requires out != [] && text != [] && rest != [] && rest[0] == line
    requires Leads(out, text, rest, line)
    ensures Leads([if c == '\r' then out[0] else [c] + out[0]] + out[1..],
                  [if c == '\r' then text[0] else [c] + text[0]] + text[1..], [line] + rest[1..], line)
  {
    assert [line] + rest[1..] == rest;
    assert Trimmed(out[0], text[rest[0] - line]);
  }

  /** Behind a carriage return, the newline of a comment ends no line of its own once the comment is gone. */
  predicate Joins(text: string, quote: Option<char>) {
    && 1 < |text| && text[0] == '\r' && text[1] == '#'
    && QuoteAfter(quote, text[0]) == None && AfterComment(text[1..]) != []
  }

  lemma SegmentsOfMore(c: char, s: string)
    ensures Segments([c] + s)
         == if Breaks([c] + s) then [""] + Segments(s)
            else [if c == '\r' then Segments(s)[0] else [c] + Segments(s)[0]] + Segments(s)[1..]
  {
    hide Separator;
    assert ([c] + s)[1..] == s;
  }

  lemma NewlineBreaks(s: string)
    requires s != [] && s[0] == '\n'
    ensures Breaks(s) && Segments(s) == [""] + Segments(s[1..])
  {
  }

  lemma KeptTraces(c: char, out: string, text: string, rest: seq<nat>, line: nat)
    requires rest != [] && (rest[0] == if Breaks([c] + text) then line + 1 else line)
    requires Traces(out, text, rest, rest[0])
    requires Breaks([c] + text) == Breaks([c] + out) || (Breaks([c] + text) && c == '\r' && out != [] && out[0] == '\n')
    ensures Traces([c] + out, [c] + text, Kept([c] + out, rest, line), line)
  {
    hide Separator, Segments, Breaks;
    SegmentsOfMore(c, out);
    SegmentsOfMore(c, text);
    if Breaks([c] + out) {
      EndedTraces(Segments(out), Segments(text), rest, line);
    } else if Breaks([c] + text) {
      NewlineBreaks(out);
      JoinedTraces(Segments(out), Segments(text), rest, line);
    } else {
      GrownTraces(c, Segments(out), Segments(text), rest, line);
    }
  }

  lemma {:induction false} CommentLines(text: string)
    ensures var rest := AfterComment(text);
            && |Segments(text)| == Inside(text) + |Segments(rest)|
            && Segments(text)[Inside(text) + 1..] == Segments(rest)[1..]
    ensures text != [] && text[0] == '#' ==> Segments(text)[0] != [] && Segments(text)[0][0] == '#'
    decreases |text|
  {
    hide Separator, Breaks;
    if text != [] && text[0] != '\n' {
      if text[0] == '#' {
        NeverBreaks(text);
      }
      CommentLines(text[1..]);
      assert AfterComment(text[1..]) == AfterComment(text);
      var all, inside := Segments(text[1..]), Inside(text[1..]);
      DropBehind("", all, inside + 1);
      DropBehind(if text[0] == '\r' then all[0] else [text[0]] + all[0], all[1..], inside);
      hide Inside, Segments, AfterComment;
    }
  }

  lemma DropBehind(first: string, all: seq<string>, k: nat)
    requires k <= |all|
    ensures ([first] + all)[k + 1..] == all[k..]
  {
  }

  /** Only the first character matters, and behind a carriage return whether a newline follows. */
  lemma BreaksBy(s: string, t: string)
    requires s != [] && t != [] && s[0] == t[0]
    requires s[0] == '\r' ==> ((1 < |s| && s[1] == '\n') <==> (1 < |t| && t[1] == '\n'))
    ensures Breaks(s) == Breaks(t)
  {
    hide Separator;
  }

  lemma NeverBreaks(s: string)
    requires s != [] && (s[0] == '\\' || s[0] == '#')
    ensures !Breaks(s)
  {
  }

  lemma ReturnBreaks(s: string)
    requires s != [] && s[0] == '\r'
    ensures Breaks(s) <==> !(1 < |s| && s[1] == '\n')
  {
  }

  lemma StripFirst(text: string, quote: Option<char>)
    ensures var out := Strip(text, quote);
            if text == [] then out == []
            else if quote == None && text[0] == '#' then
              if AfterComment(text) == [] then out == [] else out != [] && out[0] == '\n'
            else out != [] && out[0] == text[0]
  {
  }

  lemma StripKept(text: string, quote: Option<char>)
    requires text != [] && (quote == None ==> text[0] != '#')
    requires quote.Some? ==> text[0] != '\\' || |text| == 1
    ensures Strip(text, quote) == [text[0]] + Strip(text[1..], QuoteAfter(quote, text[0]))
  {
  }

  /** Whether a kept character ends a line is the same before and after, unless a comment behind it goes. */
  lemma BreaksAlike(text: string, quote: Option<char>, out: string)
    requires text != [] && out == Strip(text[1..], QuoteAfter(quote, text[0]))
    ensures if Joins(text, quote) then Breaks(text) && !Breaks([text[0]] + out) && out != [] && out[0] == '\n'
            else Breaks(text) == Breaks([text[0]] + out)
  {
    var rest, next := text[1..], QuoteAfter(quote, text[0]);
    StripFirst(rest, next);
    hide Strip, AfterComment, Separator;
    if Joins(text, quote) {
      ReturnBreaks(text);
      ReturnBreaks([text[0]] + out);
    } else {
      BreaksBy(text, [text[0]] + out);
    }
  }

  lemma CommentTraces(text: string, line: nat)
    requires text != [] && text[0] == '#'
    requires var rest := AfterComment(text);
      rest != [] ==>
        var next := line + Inside(text) + 1;
        Traces(Strip(rest[1..], None), rest[1..], Origins(rest[1..], None, next), next)
    ensures Traces(Strip(text, None), text, Origins(text, None, line), line)
  {
    hide Separator, Segments, Breaks;
    CommentLines(text);
    var rest, out := AfterComment(text), Strip(text, None);
    var a, b := Segments(out), Segments(text);
    if rest == [] {
      EmptySegments();
      assert Trimmed(a[0], b[0]);
    } else {
      var next, more := line + Inside(text) + 1, rest[1..];
      assert out == Strip(rest, None) == ['\n'] + Strip(more, None);
      NewlineBreaks(out);
      NewlineBreaks(rest);
      assert ([""] + Segments(more))[1..] == Segments(more);
      BehindTraces(b, Segments(Strip(more, None)), Origins(more, None, next), Inside(text) + 1, line);
    }
  }

  lemma EmptySegments()
    ensures Segments("") == [""]
  {
  }

  lemma QuotedFirst(text: string, quote: char)
    ensures var out := Strip(text, Some(quote)); (out == [] <==> text == []) && (text != [] ==> out[0] == text[0])
  {
  }

  lemma EscapeTraces(text: string, quote: Option<char>, line: nat)
    requires 1 < |text| && text[0] == '\\' && quote.Some?
    requires var next := if Breaks(text[1..]) then line + 1 else line;
             Traces(Strip(text[2..], quote), text[2..], Origins(text[2..], quote, next), next)
    ensures Traces(Strip(text, quote), text, Origins(text, quote, line), line)
  {
    var rest, out := text[2..], Strip(text[2..], quote);
    var lines := Origins(rest, quote, if Breaks(text[1..]) then line + 1 else line);
    QuotedFirst(rest, quote.value);
    assert Strip(text, quote) == text[..2] + out
        && Origins(text, quote, line) == Kept(Strip(text, quote)[1..], lines, line);
    hide Traces, Segments, Separator, Breaks, Strip, Origins, Kept;
    SplitTwo(text, rest);
    SplitTwo(Strip(text, quote), out);
    BreaksBy([text[1]] + rest, [text[1]] + out);
    TracesTwice(text[1], out, rest, lines, line);
  }

  lemma SplitTwo(text: string, rest: string)
    requires 1 < |text| && text[2..] == rest
    ensures text[1..] == [text[1]] + rest && text == [text[0]] + ([text[1]] + rest)
  {
  }

  /** A backslash and the character it escapes are both kept. */
  lemma TracesTwice(c: char, out: string, text: string, lines: seq<nat>, line: nat)
    requires Breaks([c] + text) == Breaks([c] + out)
    requires lines != [] && (lines[0] == if Breaks([c] + text) then line + 1 else line)
        && Traces(out, text, lines, lines[0])
    ensures Traces(['\\'] + ([c] + out), ['\\'] + ([c] + text), Kept([c] + out, lines, line), line)
  {
    hide Traces, Segments, Separator, Breaks;
    NeverBreaks(['\\'] + ([c] + out));
    NeverBreaks(['\\'] + ([c] + text));
    KeptTraces(c, out, text, lines, line);
    var more := Kept([c] + out, lines, line);
    KeptTraces('\\', [c] + out, [c] + text, more, line);
    assert [line] + more[1..] == more;
  }

  lemma {:induction false} OriginsTrace(text: string, quote: Option<char>, line: nat)
    ensures Traces(Strip(text, quote), text, Origins(text, quote, line), line)
    decreases |text|
  {
    hide Traces, Segments, Separator, Breaks;
    if text == [] {
      EmptyTraces(line);
    } else if quote == None && text[0] == '#' {
      if AfterComment(text) != [] {
        OriginsTrace(AfterComment(text)[1..], None, line + Inside(text) + 1);
      }
      CommentTraces(text, line);
    } else if quote.Some? && text[0] == '\\' && 1 < |text| {
      OriginsTrace(text[2..], quote, if Breaks(text[1..]) then line + 1 else line);
      EscapeTraces(text, quote, line);
    } else {
      var next := QuoteAfter(quote, text[0]);
      var lines := Origins(text[1..], next, if Breaks(text) then line + 1 else line);
      OriginsTrace(text[1..], next, if Breaks(text) then line + 1 else line);
      assert text == [text[0]] + text[1..] && Strip(text, quote) == [text[0]] + Strip(text[1..], next);
      BreaksAlike(text, quote, Strip(text[1..], next));
      KeptTraces(text[0], Strip(text[1..], next), text[1..], lines, line);
    }
  }

  lemma EmptyTraces(line: nat)
    ensures Traces("", "", [line], line)
  {
  }

  // Line numbers

  /** Each of the first n numbers is the one its place says. */
  ghost predicate Unmoved(origins: seq<nat>, line: nat, n: nat) {
    n <= |origins| && forall i | 0 <= i < n :: origins[i] == line + i
  }

  /**
   * No comment with anything kept behind the newline that ends it has another line end in
   * it, or begins right behind a carriage return.
   */
  predicate Undisturbed(text: string, quote: Option<char>)
    decreases |text|
  {
    if text == [] then true
    else if quote == None && text[0] == '#' then
      var rest := AfterComment(text);
      rest == [] || Strip(rest[1..], None) == [] || (Inside(text) == 0 && Undisturbed(rest[1..], None))
    else if quote.Some? && text[0] == '\\' && 1 < |text| then Undisturbed(text[2..], quote)
    else
      && (Joins(text, quote) ==> Strip(AfterComment(text[1..])[1..], None) == [])
      && Undisturbed(text[1..], QuoteAfter(quote, text[0]))
  }

  lemma LinesOfMore(c: char, s: string)
    ensures Lines("") == [] && (s != [] ==> Lines(s) != [])
    ensures |Lines([c] + s)| == if Breaks([c] + s) then 1 + |Lines(s)| else if s == [] then 1 else |Lines(s)|
  {
    SegmentsOfMore(c, s);
    EmptySegments();
    if s != [] {
      LastSegment(s);
    }
    if c == '\r' {
      ReturnBreaks([c] + s);
      if s != [] && s[0] == '\n' {
        NewlineBreaks(s);
      }
    }
    hide Separator, Breaks, Segments;
    var all := Segments(s);
    var first := if c == '\r' then all[0] else [c] + all[0];
    LinesCount(s);
    LinesCount([c] + s);
    hide Lines;
    if Breaks([c] + s) {
      EndedCount(all);
    } else if 1 < |all| {
      GrownCount(first, all);
    } else {
      assert c != '\r' && Segments([c] + s) == [first];
    }
  }

  function Count(all: seq<string>): nat
    requires all != []
  {
    if all[|all| - 1] == "" then |all| - 1 else |all|
  }

  lemma LinesCount(s: string)
    ensures |Lines(s)| == Count(Segments(s))
  {
  }

  lemma EndedCount(all: seq<string>)
    requires all != []
    ensures Count([""] + all) == 1 + Count(all)
  {
  }

  lemma GrownCount(first: string, all: seq<string>)
    requires 1 < |all|
    ensures Count([first] + all[1..]) == Count(all)
  {
  }

  lemma {:induction false} LastSegment(s: string)
    requires s != []
    ensures |Segments(s)| > 1 || Segments(s)[0] != ""
  {
    hide Separator, Breaks;
    if s[0] == '\r' {
      ReturnBreaks(s);
    }
    if 1 < |s| {
      LastSegment(s[1..]);
      if s[1] == '\n' {
        NewlineBreaks(s[1..]);
      }
    }
  }

  /** The numbers of the lines `splitlines` gives stay right exactly for undisturbed text. */
  lemma {:induction false} NumbersStayExactly(text: string, quote: Option<char>, line: nat)
    ensures var out := Strip(text, quote);
            Unmoved(Origins(text, quote, line), line, |Lines(out)|) <==> Undisturbed(text, quote)
    decreases |text|
  {
    hide Breaks, Unmoved, Lines;
    if text == [] {
      UnmovedOne(line);
    } else if quote == None && text[0] == '#' {
      if AfterComment(text) != [] {
        NumbersStayExactly(AfterComment(text)[1..], None, line + Inside(text) + 1);
      }
      UnmovedComment(text, line);
    } else if quote.Some? && text[0] == '\\' && 1 < |text| {
      NumbersStayExactly(text[2..], quote, if Breaks(text[1..]) then line + 1 else line);
      UnmovedEscape(text, quote, line);
    } else {
      var next, c := if Breaks(text) then line + 1 else line, QuoteAfter(quote, text[0]);
      NumbersStayExactly(text[1..], c, next);
      StripKept(text, quote);
      BreaksAlike(text, quote, Strip(text[1..], c));
      if Joins(text, quote) {
        UnmovedJoin(text, quote, line);
      } else {
        LinesWithin(text[1..], c, next);
        UnmovedKept(text[0], Strip(text[1..], c), Origins(text[1..], c, next), line);
      }
    }
  }

  lemma UnmovedOne(line: nat)
    ensures Unmoved([line], line, 0) && Unmoved([line], line, 1) && |Lines("")| == 0
  {
  }

  lemma UnmovedKept(c: char, out: string, rest: seq<nat>, line: nat)
    requires rest != [] && (rest[0] == if Breaks([c] + out) then line + 1 else line)
    requires |Lines(out)| <= |rest|
    ensures Unmoved(Kept([c] + out, rest, line), line, |Lines([c] + out)|) <==> Unmoved(rest, rest[0], |Lines(out)|)
  {
    LinesOfMore(c, out);
    hide Lines, Breaks;
    if Breaks([c] + out) {
      UnmovedBehind(line, rest, line + 1, |Lines(out)|);
    } else {
      assert [line] + rest[1..] == rest;
    }
  }

  lemma UnmovedBehind(line: nat, more: seq<nat>, next: nat, n: nat)
    requires more != [] && more[0] == next && n <= |more|
    ensures Unmoved([line] + more, line, 1 + n) <==> n == 0 || (next == line + 1 && Unmoved(more, next, n))
  {
    var all := [line] + more;
    assert forall i | 0 <= i < |more| :: all[i + 1] == more[i];
    if n > 0 && Unmoved(all, line, 1 + n) {
      assert all[1] == next;
      forall i | 0 <= i < n ensures more[i] == next + i {
        assert all[i + 1] == line + (i + 1);
      }
    }
  }

  lemma LinesWithin(text: string, quote: Option<char>, line: nat)
    ensures |Lines(Strip(text, quote))| <= |Origins(text, quote, line)|
  {
    OriginsTrace(text, quote, line);
  }

  lemma UnmovedComment(text: string, line: nat)
    requires text != [] && text[0] == '#'
    requires var rest := AfterComment(text);
      rest != [] ==>
        var next := line + Inside(text) + 1;
        Unmoved(Origins(rest[1..], None, next), next, |Lines(Strip(rest[1..], None))|) <==> Undisturbed(rest[1..], None)
    ensures Unmoved(Origins(text, None, line), line, |Lines(Strip(text, None))|) <==> Undisturbed(text, None)
  {
    hide Breaks, Unmoved, Lines;
    var rest := AfterComment(text);
    if rest == [] {
      UnmovedOne(line);
      assert Strip(text, None) == Strip([], None) == [] && Origins(text, None, line) == [line];
    } else {
      var next, out := line + Inside(text) + 1, Strip(rest[1..], None);
      assert Strip(text, None) == Strip(rest, None) == ['\n'] + out;
      NewlineBreaks(['\n'] + out);
      LinesOfMore('\n', out);
      LinesWithin(rest[1..], None, next);
      UnmovedBehind(line, Origins(rest[1..], None, next), next, |Lines(out)|);
    }
  }

  lemma UnmovedEscape(text: string, quote: Option<char>, line: nat)
    requires 1 < |text| && text[0] == '\\' && quote.Some?
    requires var next, out := if Breaks(text[1..]) then line + 1 else line, Strip(text[2..], quote);
             Unmoved(Origins(text[2..], quote, next), next, |Lines(out)|) <==> Undisturbed(text[2..], quote)
    ensures Unmoved(Origins(text, quote, line), line, |Lines(Strip(text, quote))|) <==> Undisturbed(text, quote)
  {
    var rest, out := text[2..], Strip(text[2..], quote);
    var next := if Breaks(text[1..]) then line + 1 else line;
    var lines := Origins(rest, quote, next);
    QuotedFirst(rest, quote.value);
    LinesWithin(rest, quote, next);
    assert Strip(text, quote) == text[..2] + out
        && Origins(text, quote, line) == Kept(Strip(text, quote)[1..], lines, line);
    assert Undisturbed(text, quote) == Undisturbed(rest, quote);
    hide Unmoved, Lines, Breaks, Strip, Origins, Kept, Undisturbed;
    SplitTwo(text, rest);
    SplitTwo(Strip(text, quote), out);
    BreaksBy([text[1]] + rest, [text[1]] + out);
    UnmovedTwice(text[1], out, lines, line);
  }

  lemma UnmovedTwice(c: char, out: string, lines: seq<nat>, line: nat)
    requires lines != [] && (lines[0] == if Breaks([c] + out) then line + 1 else line) && |Lines(out)| <= |lines|
    ensures Unmoved(Kept([c] + out, lines, line), line, |Lines(['\\'] + ([c] + out))|)
       <==> Unmoved(lines, lines[0], |Lines(out)|)
  {
    hide Unmoved, Lines, Breaks;
    NeverBreaks(['\\'] + ([c] + out));
    LinesOfMore('\\', [c] + out);
    UnmovedKept(c, out, lines, line);
  }

  /** The newline behind the comment then ends the line of the carriage return. */
  lemma UnmovedJoin(text: string, quote: Option<char>, line: nat)
    requires Joins(text, quote)
    ensures Unmoved(Origins(text, quote, line), line, |Lines(Strip(text, quote))|) <==> Undisturbed(text, quote)
  {
    hide Unmoved, Lines, Breaks, Separator, Segments;
    var rest := AfterComment(text[1..])[1..];
    var out, next := Strip(rest, None), line + 1 + Inside(text[1..]) + 1;
    var more := Origins(rest, None, next);
    StripKept(text, quote);
    BreaksAlike(text, quote, Strip(text[1..], None));
    assert Strip(text[1..], None) == Strip(AfterComment(text[1..]), None) == ['\n'] + out;
    assert Origins(text[1..], None, line + 1) == [line + 1] + more;
    assert Origins(text, quote, line) == [line] + more;
    NewlineBreaks(['\n'] + out);
    LinesOfMore('\n', out);
    LinesOfMore(text[0], ['\n'] + out);
    LinesWithin(rest, None, next);
    UnmovedBehind(line, more, next, |Lines(out)|);
  }

  /** Every line `splitlines` gives of the stripped text, and the line of the text it is. */
  lemma StrippedLinesAreTrimmed(text: string)
    ensures var out, from := Strip(text, None), Origins(text, None, 0);
            && |Lines(out)| <= |from|
            && forall i | 0 <= i < |Lines(out)| :: from[i] < |Lines(text)|
                && Trimmed(Lines(out)[i], Lines(text)[from[i]])
  {
    hide Segments, Origins, Strip;
    OriginsTrace(text, None, 0);
    var out, from := Strip(text, None), Origins(text, None, 0);
    forall i | 0 <= i < |Lines(out)| ensures from[i] < |Lines(text)| && Trimmed(Lines(out)[i], Lines(text)[from[i]]) {
      assert Trimmed(Segments(out)[i], Segments(text)[from[i]]);
      assert i + 1 < |from| ==> from[i] < from[i + 1] < |Segments(text)|;
    }
  }

  /** The line ends that stripping takes away. */
  function Hidden(text: string, quote: Option<char>): nat
    decreases |text|
  {
    if text == [] then 0
    else if quote == None && text[0] == '#' then
      var rest := AfterComment(text);
      Inside(text) + if rest == [] then 0 else Hidden(rest[1..], None)
    else if quote.Some? && text[0] == '\\' && 1 < |text| then Hidden(text[2..], quote)
    else (if Joins(text, quote) then 1 else 0) + Hidden(text[1..], QuoteAfter(quote, text[0]))
  }

  lemma EscapeSegments(text: string, quote: Option<char>)
    requires 1 < |text| && text[0] == '\\' && quote.Some?
    ensures |Segments(text)| - |Segments(text[2..])|
        == |Segments(Strip(text, quote))| - |Segments(Strip(text[2..], quote))|
  {
    hide Separator, Breaks, Segments;
    var out := Strip(text[2..], quote);
    QuotedFirst(text[2..], quote.value);
    BreaksBy([text[1]] + text[2..], [text[1]] + out);
    NeverBreaks([text[0]] + ([text[1]] + out));
    NeverBreaks([text[0]] + ([text[1]] + text[2..]));
    assert text == [text[0]] + ([text[1]] + text[2..]) && Strip(text, quote) == [text[0]] + ([text[1]] + out);
    SegmentsOfMore(text[1], text[2..]);
    SegmentsOfMore(text[1], out);
    SegmentsOfMore(text[0], [text[1]] + text[2..]);
    SegmentsOfMore(text[0], [text[1]] + out);
  }

  /** Counting what stands behind the last line end, exactly those lines go. */
  lemma {:induction false} HiddenLinesAreLost(text: string, quote: Option<char>)
    ensures |Segments(text)| == |Segments(Strip(text, quote))| + Hidden(text, quote)
    decreases |text|
  {
    hide Segments, Breaks;
    if text == [] {
    } else if quote == None && text[0] == '#' {
      CommentLines(text);
      var rest := AfterComment(text);
      EmptySegments();
      if rest != [] {
        HiddenLinesAreLost(rest[1..], None);
        assert Strip(text, None) == Strip(rest, None) == ['\n'] + Strip(rest[1..], None);
        NewlineBreaks(rest);
        NewlineBreaks(['\n'] + Strip(rest[1..], None));
      }
    } else if quote.Some? && text[0] == '\\' && 1 < |text| {
      HiddenLinesAreLost(text[2..], quote);
      EscapeSegments(text, quote);
    } else {
      var out := Strip(text[1..], QuoteAfter(quote, text[0]));
      HiddenLinesAreLost(text[1..], QuoteAfter(quote, text[0]));
      StripKept(text, quote);
      BreaksAlike(text, quote, out);
      assert text == [text[0]] + text[1..];
      SegmentsOfMore(text[0], text[1..]);
      SegmentsOfMore(text[0], out);
    }
  }

  const FORM_FEED: char := 0x0C as char

  lemma FormFeedSegments()
    ensures Segments(['\n', 'b']) == ["", "b"] && Segments(['#', FORM_FEED, '\n', 'b']) == ["#", "", "b"]
    ensures Inside(['#', FORM_FEED, '\n', 'b']) == 1 && AfterComment(['#', FORM_FEED, '\n', 'b']) == ['\n', 'b']
  {
    var feed := [FORM_FEED, '\n', 'b'];
    assert ['#'] + feed == ['#', FORM_FEED, '\n', 'b'] && feed[1..] == ['\n', 'b'] && ['\n', 'b'][1..] == ['b'];
    EmptySegments();
    SegmentsOfMore('b', "");
    assert !Breaks(['b']) && Breaks(feed) && !Breaks(['#'] + feed) && ['b'] + "" == ['b'];
    assert Segments(['b']) == ["b"] by { assert [['b'] + ""] + [""][1..] == ["b"]; }
    NewlineBreaks(['\n', 'b']);
    SegmentsOfMore('#', feed);
    assert (['#'] + feed)[1..] == feed;
    assert Inside(['\n', 'b']) == 0 && Inside(feed) == 1;
    assert Segments(feed) == [""] + ["", "b"] == ["", "", "b"];
    assert AfterComment(feed) == ['\n', 'b'];
    hide Separator, Breaks, Segments, Inside;
    assert ['#'] + "" == "#" && ["#"] + ["", "", "b"][1..] == ["#", "", "b"];
  }

  /** Behind a form feed in a comment every line is reported by a smaller number. */
  lemma FormFeedMovesLines()
    ensures var text := ['#', FORM_FEED, '\n', 'b'];
            && Lines(text) == ["#", "", "b"] && Lines(Strip(text, None)) == ["", "b"]
            && Origins(text, None, 0)[1] == 2 && !Undisturbed(text, None)
  {
    var text := ['#', FORM_FEED, '\n', 'b'];
    FormFeedSegments();
    hide Segments, Inside, AfterComment, Breaks;
    assert ['\n', 'b'][1..] == ['b'];
    assert Strip(['b'], None) == ['b'] by { assert Strip([], None) == []; }
    assert Strip(['\n', 'b'], None) == ['\n'] + Strip(['b'], None) == ['\n', 'b'];
    assert Strip(text, None) == Strip(['\n', 'b'], None);
  }
}

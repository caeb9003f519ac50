/**
 * What `strip_gn_comments` in tools/check-brave-services.py does to a text, by the
 * pieces the text consists of: every text is characters, quoted strings and comments,
 * and exactly the comments go.
 */
module GnPieces {
  import opened Outcomes
  import opened GnComments

  /** A string is open when the text ends inside it; a comment's text is behind its `#`. */
  datatype Piece = Char(c: char) | Quoted(quote: char, body: string, closed: bool) | Comment(text: string)

  /** Inside a string a backslash keeps the character behind it, also a quotation mark. */
  predicate Escaped(body: string, quote: char)
    decreases |body|
  {
    body == []
    || (body[0] == '\\' && |body| > 1 && Escaped(body[2..], quote))
    || (body[0] != '\\' && body[0] != quote && Escaped(body[1..], quote))
  }

  predicate OpenBody(body: string, quote: char) {
    Escaped(body, quote) || (body != [] && body[|body| - 1] == '\\' && Escaped(body[..|body| - 1], quote))
  }

  predicate GoodPiece(piece: Piece, rest: seq<Piece>) {
    match piece
    case Char(c) => c != '"' && c != '\'' && c != '#'
    case Quoted(quote, body, closed) =>
      (quote == '"' || quote == '\'') && if closed then Escaped(body, quote) else OpenBody(body, quote) && rest == []
    case Comment(text) => '\n' !in text && (rest == [] || rest[0] == Char('\n'))
  }

  predicate GoodPieces(pieces: seq<Piece>) {
    forall i | 0 <= i < |pieces| :: GoodPiece(pieces[i], pieces[i + 1..])
  }

  function PieceText(piece: Piece): string {
    match piece
    case Char(c) => [c]
    case Quoted(quote, body, closed) => [quote] + body + if closed then [quote] else []
    case Comment(text) => "#" + text
  }

  function Written(pieces: seq<Piece>): string
    decreases |pieces|
  {
    if pieces == [] then [] else PieceText(pieces[0]) + Written(pieces[1..])
  }

  function WithoutComments(pieces: seq<Piece>): seq<Piece>
    decreases |pieces|
  {
    if pieces == [] then []
    else (if pieces[0].Comment? then [] else [pieces[0]]) + WithoutComments(pieces[1..])
  }

  // One step inside a string.

  lemma InsideOne(c: char, rest: string, quote: char)
    requires c != '\\'
    ensures Strip([c] + rest, Some(quote)) == [c] + Strip(rest, if c == quote then None else Some(quote))
  {
    assert ([c] + rest)[1..] == rest;
  }

  lemma InsideTwo(two: string, rest: string, quote: char)
    requires |two| == 2 && two[0] == '\\'
    ensures Strip(two + rest, Some(quote)) == two + Strip(rest, Some(quote))
  {
    assert (two + rest)[..2] == two && (two + rest)[2..] == rest;
  }

  lemma {:induction false} ClosedStays(body: string, quote: char, rest: string)
    requires Escaped(body, quote) && quote != '\\'
    ensures Strip(body + ([quote] + rest), Some(quote)) == body + ([quote] + Strip(rest, None))
    decreases |body|
  {
    var text := [quote] + rest;
    if body == [] {
      InsideOne(quote, rest, quote);
      assert [] + text == text && [] + ([quote] + Strip(rest, None)) == [quote] + Strip(rest, None);
    } else {
      var n := if body[0] == '\\' then 2 else 1;
      var head, tail := body[..n], body[n..];
      ClosedStays(tail, quote, rest);
      assert n == 1 ==> head == [body[0]];
      assert body == head + tail;
      Joins(head, tail, text);
      Joins(head, tail, [quote] + Strip(rest, None));
      if n == 2 {
        InsideTwo(head, tail + text, quote);
      } else {
        InsideOne(body[0], tail + text, quote);
      }
      hide Strip, Escaped;
    }
  }

  lemma Joins(head: string, tail: string, more: string)
    ensures head + (tail + more) == (head + tail) + more
  {
  }

  lemma {:induction false} OpenStays(body: string, quote: char)
    requires OpenBody(body, quote)
    ensures Strip(body, Some(quote)) == body
    decreases |body|
  {
    if body != [] && body != ['\\'] {
      var n := if body[0] == '\\' then 2 else 1;
      OpenRest(body, quote);
      OpenStays(body[n..], quote);
      assert body == body[..n] + body[n..];
    }
  }

  lemma OpenRest(body: string, quote: char)
    requires OpenBody(body, quote) && body != [] && body != ['\\']
    ensures body[0] == '\\' ==> |body| > 1 && OpenBody(body[2..], quote)
    ensures body[0] != '\\' ==> body[0] != quote && OpenBody(body[1..], quote)
  {
    if !Escaped(body, quote) {
      var front := body[..|body| - 1];
      assert Escaped(front, quote) && front != [];
      var n := if body[0] == '\\' then 2 else 1;
      assert front[n..] == body[n..][..|body[n..]| - 1];
    }
  }

  lemma {:induction false} CommentGoes(text: string, rest: string)
    requires '\n' !in text && (rest == [] || rest[0] == '\n')
    ensures AfterComment(text + rest) == rest
    decreases |text|
  {
    if text == [] {
      assert text + rest == rest;
    } else {
      CommentGoes(text[1..], rest);
      assert (text + rest)[1..] == text[1..] + rest;
      assert text[0] in text;
    }
  }

  /** Exactly the comments go: every character outside a comment and every string stays as it is. */
  lemma {:induction false} CommentsGo(pieces: seq<Piece>)
    requires GoodPieces(pieces)
    ensures Strip(Written(pieces), None) == Written(WithoutComments(pieces))
    decreases |pieces|
  {
    if pieces != [] {
      var first, rest := pieces[0], pieces[1..];
      assert GoodPiece(first, rest);
      forall i | 0 <= i < |rest| ensures GoodPiece(rest[i], rest[i + 1..]) {
        assert rest[i + 1..] == pieces[i + 2..];
        assert GoodPiece(pieces[i + 1], pieces[i + 2..]);
      }
      CommentsGo(rest);
      FirstPiece(first, rest);
    }
  }

  lemma FirstPiece(first: Piece, rest: seq<Piece>)
    requires GoodPiece(first, rest) && Strip(Written(rest), None) == Written(WithoutComments(rest))
    ensures Strip(Written([first] + rest), None) == Written(WithoutComments([first] + rest))
  {
    var pieces, behind := [first] + rest, Written(rest);
    assert pieces[1..] == rest;
    assert Written(pieces) == PieceText(first) + behind;
    if first.Comment? {
      assert WithoutComments(pieces) == [] + WithoutComments(rest) == WithoutComments(rest);
      CommentIsDropped(first.text, behind);
    } else {
      assert WithoutComments(pieces) == [first] + WithoutComments(rest);
      assert ([first] + WithoutComments(rest))[1..] == WithoutComments(rest);
      if first.Char? {
        assert ([first.c] + behind)[1..] == behind;
      } else {
        StringStays(first, behind);
        assert !first.closed ==> behind == [] && Strip(behind, None) == [];
      }
    }
  }

  lemma CommentIsDropped(comment: string, behind: string)
    requires '\n' !in comment && (behind == [] || behind[0] == '\n')
    ensures Strip("#" + comment + behind, None) == Strip(behind, None)
  {
    var text := "#" + comment + behind;
    assert text[1..] == comment + behind;
    CommentGoes(comment, behind);
    assert text[0] == '#' && AfterComment(text) == AfterComment(text[1..]);
    hide AfterComment;
  }

  lemma StringStays(piece: Piece, behind: string)
    requires piece.Quoted? && (piece.quote == '"' || piece.quote == '\'')
    requires if piece.closed then Escaped(piece.body, piece.quote)
        else OpenBody(piece.body, piece.quote) && behind == []
    ensures Strip(PieceText(piece) + behind, None)
         == PieceText(piece) + if piece.closed then Strip(behind, None) else []
  {
    var inner := if piece.closed then piece.body + ([piece.quote] + behind) else piece.body;
    QuoteOpens(piece.quote, inner);
    if piece.closed {
      ClosedStays(piece.body, piece.quote, behind);
    } else {
      OpenStays(piece.body, piece.quote);
    }
    hide Strip, Escaped, OpenBody;
    assert PieceText(piece) + behind == [piece.quote] + inner;
  }

  lemma QuoteOpens(quote: char, rest: string)
    requires quote == '"' || quote == '\''
    ensures Strip([quote] + rest, None) == [quote] + Strip(rest, Some(quote))
  {
    assert ([quote] + rest)[1..] == rest;
  }

  /** Every text consists of such pieces. */
  lemma {:induction false} HasPieces(text: string) returns (pieces: seq<Piece>)
    ensures GoodPieces(pieces) && Written(pieces) == text
    decreases |text|
  {
    pieces := [];
    if text != [] {
      var first, n := FirstOf(text);
      var rest := HasPieces(text[n..]);
      FirstIsGood(text, first, n, rest);
      pieces := [first] + rest;
      assert pieces[1..] == rest && text == text[..n] + text[n..];
      forall i | 0 <= i < |pieces| ensures GoodPiece(pieces[i], pieces[i + 1..]) {
        if i > 0 {
          assert GoodPiece(rest[i - 1], rest[i..]) && pieces[i + 1..] == rest[i..];
        } else {
          assert pieces[1..] == rest;
        }
      }
    }
  }

  /** What the first piece of a text is, and how long. */
  ghost predicate Starts(text: string, first: Piece, n: nat) {
    && 0 < n <= |text| && PieceText(first) == text[..n]
    && match first
       case Char(c) => c != '"' && c != '\'' && c != '#'
       case Quoted(quote, body, closed) =>
         (quote == '"' || quote == '\'') && if closed then Escaped(body, quote)
             else OpenBody(body, quote) && n == |text|
       case Comment(comment) => '\n' !in comment && (n == |text| || text[n] == '\n')
  }

  lemma FirstOf(text: string) returns (first: Piece, n: nat)
    requires text != []
    ensures Starts(text, first, n)
  {
    if text[0] == '#' {
      n := CommentEnd(text, 1);
      first := Comment(text[1..n]);
      assert text[..n] == "#" + text[1..n];
    } else if text[0] == '"' || text[0] == '\'' {
      var body, closed := BodyOf(text[1..], text[0]);
      first := Quoted(text[0], body, closed);
      n := 1 + |body| + if closed then 1 else 0;
      assert text == [text[0]] + text[1..];
    } else {
      first, n := Char(text[0]), 1;
    }
  }

  lemma {:induction false} CommentEnd(text: string, i: nat) returns (n: nat)
    requires i <= |text|
    ensures i <= n <= |text| && '\n' !in text[i..n] && (n == |text| || text[n] == '\n')
    decreases |text| - i
  {
    n := i;
    if i < |text| && text[i] != '\n' {
      n := CommentEnd(text, i + 1);
      assert text[i..n] == [text[i]] + text[i + 1..n];
    }
  }

  /** The inside of a string that starts here, up to its end or the end of the text. */
  lemma {:induction false} BodyOf(text: string, quote: char) returns (body: string, closed: bool)
    requires quote != '\\'
    ensures |body| <= |text| && text[..|body|] == body
    ensures closed ==> |body| < |text| && text[|body|] == quote && Escaped(body, quote)
    ensures !closed ==> body == text && OpenBody(body, quote)
    decreases |text|
  {
    body, closed := [], false;
    if text != [] && text[0] == quote {
      closed := true;
    } else if text == ['\\'] {
      body := text;
      assert body[..0] == [];
    } else if text != [] {
      var n := if text[0] == '\\' then 2 else 1;
      var rest;
      rest, closed := BodyOf(text[n..], quote);
      body := text[..n] + rest;
      assert body[n..] == rest && text == text[..n] + text[n..];
      if !closed && !Escaped(rest, quote) {
        assert body[..|body| - 1][n..] == rest[..|rest| - 1];
      }
    }
  }

  lemma FirstIsGood(text: string, first: Piece, n: nat, rest: seq<Piece>)
    requires Starts(text, first, n) && GoodPieces(rest) && Written(rest) == text[n..]
    ensures GoodPiece(first, rest)
  {
    if rest != [] {
      assert Written(rest) != [];
      assert GoodPiece(rest[0], rest[1..]);
      if first.Comment? {
        assert Written(rest)[0] == text[n] == '\n';
      }
    }
  }
}

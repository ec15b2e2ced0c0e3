/** Quoting of frontmatter values as double-quoted YAML scalars (sova/commands/skill_render.py). */
module YamlQuoting {
  import opened StringOps

  // ---------------------------------------------------------------- the code's operations

  /** The inside of a well-formed quoted scalar: no bare quote, and every backslash escapes a character other than a newline. */
  predicate IsBody(s: string) {
    if s == "" then true
    else if s[0] == '\\' then |s| >= 2 && s[1] != '\n' && IsBody(s[2..])
    else s[0] != '"' && IsBody(s[1..])
  }

  predicate IsQuoted(value: string) {
    |value| >= 2 && value[0] == '"' && value[|value| - 1] == '"' && IsBody(value[1..|value| - 1])
  }

  /** Two global replacements in sequence. */
  function Unescape(body: string): string {
    Replace(Replace(body, ['\\', '"'], ['"']), ['\\', '\\'], ['\\'])
  }

  function EscapeText(text: string): string {
    Replace(Replace(text, ['\\'], ['\\', '\\']), ['"'], ['\\', '"'])
  }

  function UnwrapQuoted(value: string): string {
    if IsQuoted(value) then Unescape(value[1..|value| - 1]) else value
  }

  function YamlEscape(value: string): string {
    Quoted(EscapeText(UnwrapQuoted(value)))
  }

  function Quoted(body: string): string {
    ['"'] + body + ['"']
  }

  // ---------------------------------------------------------------- the single scans they stand for

  /** Reads a body from left to right, one escape at a time; an escape of any other character is kept as written. */
  function Scan(body: string): string
    requires IsBody(body)
  {
    if body == "" then ""
    else if body[0] == '\\' then
      (if body[1] == '\\' || body[1] == '"' then [body[1]] else [body[0], body[1]]) + Scan(body[2..])
    else [body[0]] + Scan(body[1..])
  }

  function EscapeEach(text: string): string {
    if text == "" then ""
    else (if text[0] == '\\' || text[0] == '"' then ['\\', text[0]] else [text[0]]) + EscapeEach(text[1..])
  }

  /** A body after the first of the two replacements: only the escaped quotes are undone. */
  function Halfway(body: string): string
    requires IsBody(body)
  {
    if body == "" then ""
    else if body[0] == '\\' then
      (if body[1] == '"' then [body[1]] else [body[0], body[1]]) + Halfway(body[2..])
    else [body[0]] + Halfway(body[1..])
  }

  // ---------------------------------------------------------------- one replacement, token by token

  /** A character that does not begin the pattern is copied. */
  lemma CopyOne(c: char, rest: string, pat: string, out: string)
    requires pat != "" && c != pat[0]
    ensures Replace([c] + rest, pat, out) == [c] + Replace(rest, pat, out)
  {
    ReplaceSkips([c], rest, pat, out);
  }

  /** A pattern's first character that is not followed by its second is copied. */
  lemma CopyStart(c: char, rest: string, pat: string, out: string)
    requires |pat| == 2 && c == pat[0] && (rest == "" || rest[0] != pat[1])
    ensures Replace([c] + rest, pat, out) == [c] + Replace(rest, pat, out)
  {
    var s := [c] + rest;
    assert s[1..] == rest;
    if rest != "" { assert s[1] != pat[1]; }
  }

  lemma {:induction false} FirstReplacement(body: string)
    requires IsBody(body)
    ensures Replace(body, ['\\', '"'], ['"']) == Halfway(body)
  {
    if body == "" {
    } else if body[0] == '\\' {
      FirstReplacement(body[2..]);
      FirstToken(body[1], body[2..]);
      assert body == ['\\', body[1]] + body[2..];
    } else {
      FirstReplacement(body[1..]);
      CopyOne(body[0], body[1..], ['\\', '"'], ['"']);
      assert body == [body[0]] + body[1..];
    }
  }

  lemma FirstToken(c: char, rest: string)
    requires IsBody(rest)
    ensures Replace(['\\', c] + rest, ['\\', '"'], ['"']) ==
            (if c == '"' then [c] else ['\\', c]) + Replace(rest, ['\\', '"'], ['"'])
  {
    if c == '"' {
      ReplaceHead(rest, ['\\', '"'], ['"']);
    } else {
      FirstOther(c, rest);
    }
  }

  lemma FirstOther(c: char, rest: string)
    requires IsBody(rest) && c != '"'
    ensures Replace(['\\', c] + rest, ['\\', '"'], ['"']) == ['\\', c] + Replace(rest, ['\\', '"'], ['"'])
  {
    var pat, out := ['\\', '"'], ['"'];
    assert ['\\', c] + rest == ['\\'] + ([c] + rest);
    CopyStart('\\', [c] + rest, pat, out);
    if c == '\\' { CopyStart(c, rest, pat, out); } else { CopyOne(c, rest, pat, out); }
    assert ['\\'] + ([c] + Replace(rest, pat, out)) == ['\\', c] + Replace(rest, pat, out);
  }

  lemma {:induction false} SecondReplacement(body: string)
    requires IsBody(body)
    ensures Replace(Halfway(body), ['\\', '\\'], ['\\']) == Scan(body)
  {
    if body == "" {
    } else if body[0] == '\\' {
      SecondReplacement(body[2..]);
      SecondToken(body[1], Halfway(body[2..]));
    } else {
      SecondReplacement(body[1..]);
      CopyOne(body[0], Halfway(body[1..]), ['\\', '\\'], ['\\']);
    }
  }

  lemma SecondToken(c: char, rest: string)
    ensures Replace((if c == '"' then [c] else ['\\', c]) + rest, ['\\', '\\'], ['\\']) ==
            (if c == '\\' || c == '"' then [c] else ['\\', c]) + Replace(rest, ['\\', '\\'], ['\\'])
  {
    if c == '"' {
      CopyOne(c, rest, ['\\', '\\'], ['\\']);
    } else if c == '\\' {
      ReplaceHead(rest, ['\\', '\\'], ['\\']);
    } else {
      assert ['\\', c] + rest == ['\\'] + ([c] + rest);
      CopyStart('\\', [c] + rest, ['\\', '\\'], ['\\']);
      CopyOne(c, rest, ['\\', '\\'], ['\\']);
    }
  }

  /** On every well-formed body the two replacements do what one left-to-right scan does. */
  lemma UnescapeIsOneScan(body: string)
    requires IsBody(body)
    ensures Unescape(body) == Scan(body)
  {
    FirstReplacement(body);
    SecondReplacement(body);
  }

  /** Doubling the backslashes first and escaping the quotes second never escapes an escape. */
  lemma {:induction false} EscapeIsOneScan(text: string)
    ensures EscapeText(text) == EscapeEach(text)
  {
    if text != "" {
      var c, rest := text[0], text[1..];
      var doubled := Replace(rest, ['\\'], ['\\', '\\']);
      EscapeIsOneScan(rest);
      assert text == [c] + rest;
      if c == '\\' {
        ReplaceHead(rest, ['\\'], ['\\', '\\']);
        ReplaceSkips(['\\', '\\'], doubled, ['"'], ['\\', '"']);
      } else {
        CopyOne(c, rest, ['\\'], ['\\', '\\']);
        if c == '"' { ReplaceHead(doubled, ['"'], ['\\', '"']); } else { CopyOne(c, doubled, ['"'], ['\\', '"']); }
      }
    }
  }

  /** The smallest pieces of a body: a character that is neither quote nor backslash, or an escape. */
  predicate IsPiece(piece: string) {
    || (|piece| == 1 && piece[0] != '"' && piece[0] != '\\')
    || (|piece| == 2 && piece[0] == '\\' && piece[1] != '\n')
  }

  /** A body is any number of such pieces, one after the other, and nothing else is. */
  lemma {:induction false} BodyExactly(s: string)
    ensures IsBody(s) <==> exists pieces: seq<string> :: (forall piece | piece in pieces :: IsPiece(piece)) && Concat(pieces) == s
  {
    if IsBody(s) {
      var pieces := Pieces(s);
    }
    forall pieces: seq<string> | (forall piece | piece in pieces :: IsPiece(piece)) && Concat(pieces) == s ensures IsBody(s) {
      PiecesAreBody(pieces);
    }
  }

  lemma {:induction false} Pieces(s: string) returns (pieces: seq<string>)
    requires IsBody(s)
    ensures (forall piece | piece in pieces :: IsPiece(piece)) && Concat(pieces) == s
    decreases |s|
  {
    if s == "" {
      pieces := [];
    } else {
      var n := if s[0] == '\\' then 2 else 1;
      var more := Pieces(s[n..]);
      pieces := [s[..n]] + more;
      assert pieces[1..] == more;
    }
  }

  lemma {:induction false} PiecesAreBody(pieces: seq<string>)
    requires forall piece | piece in pieces :: IsPiece(piece)
    ensures IsBody(Concat(pieces))
  {
    if pieces != [] {
      PiecesAreBody(pieces[1..]);
      assert pieces[0] in pieces;
      PieceFirst(pieces[0], Concat(pieces[1..]));
    }
  }

  lemma PieceFirst(piece: string, rest: string)
    requires IsPiece(piece) && IsBody(rest)
    ensures IsBody(piece + rest)
  {
    assert (piece + rest)[|piece|..] == rest;
  }

  /** Piece by piece: a backslash and a quote get a backslash in front, everything else stays. */
  lemma EscapeByPiece(c: char, rest: string)
    ensures EscapeText("") == ""
    ensures EscapeText([c] + rest) == (if c == '\\' then "\\\\" else if c == '"' then "\\\"" else [c]) + EscapeText(rest)
  {
    EscapeIsOneScan([c] + rest);
    EscapeIsOneScan(rest);
    assert ([c] + rest)[1..] == rest;
  }

  /** And back: an escaped backslash or quote loses its backslash, everything else stays. */
  lemma UnescapeByPiece(piece: string, rest: string)
    requires IsPiece(piece) && IsBody(rest)
    ensures Unescape("") == ""
    ensures Unescape(piece + rest) == (if piece == "\\\\" then "\\" else if piece == "\\\"" then "\"" else piece) + Unescape(rest)
  {
    PieceFirst(piece, rest);
    assert (piece + rest)[|piece|..] == rest;
    UnescapeIsOneScan(piece + rest);
    UnescapeIsOneScan(rest);
    UnescapeIsOneScan("");
    if |piece| == 2 { assert piece == [piece[0], piece[1]]; } else { assert piece == [piece[0]]; }
  }

  /** A value that is not a scalar already is escaped as it stands; one that is, from the text inside. */
  lemma WhatIsEscaped(value: string, body: string)
    ensures !IsQuoted(value) ==> YamlEscape(value) == "\"" + EscapeText(value) + "\""
    ensures IsBody(body) ==> YamlEscape("\"" + body + "\"") == "\"" + EscapeText(Unescape(body)) + "\""
  {
    assert Quoted(body) == "\"" + body + "\"";
    InsideQuotes(body);
  }

  // ---------------------------------------------------------------- the round trip

  lemma {:induction false} ScanUndoesEscape(text: string)
    ensures IsBody(EscapeEach(text)) && Scan(EscapeEach(text)) == text
  {
    if text != "" {
      var c, rest := text[0], text[1..];
      ScanUndoesEscape(rest);
      var escaped := EscapeEach(text);
      if c == '\\' || c == '"' {
        assert escaped[2..] == EscapeEach(rest);
      } else {
        assert escaped[1..] == EscapeEach(rest);
      }
      assert text == [c] + rest;
    }
  }

  /** The inside of a scalar that needs no knowledge of YAML's other escapes: a backslash or a quote is only ever escaped. */
  predicate IsPlainBody(s: string) {
    if s == "" then true
    else if s[0] == '\\' then |s| >= 2 && (s[1] == '\\' || s[1] == '"') && IsPlainBody(s[2..])
    else s[0] != '"' && IsPlainBody(s[1..])
  }

  predicate IsPlainScalar(value: string) {
    |value| >= 2 && value[0] == '"' && value[|value| - 1] == '"' && IsPlainBody(value[1..|value| - 1])
  }

  lemma {:induction false} EscapeIsPlain(text: string)
    ensures IsPlainBody(EscapeEach(text))
  {
    if text != "" {
      var c, rest := text[0], text[1..];
      EscapeIsPlain(rest);
      var escaped := EscapeEach(text);
      if c == '\\' || c == '"' {
        assert escaped[2..] == EscapeEach(rest);
      } else {
        assert escaped[1..] == EscapeEach(rest);
      }
    }
  }

  lemma {:induction false} EscapeUndoesScan(body: string)
    requires IsPlainBody(body)
    ensures IsBody(body) && EscapeEach(Scan(body)) == body
  {
    if body != "" {
      var n := if body[0] == '\\' then 2 else 1;
      EscapeUndoesScan(body[n..]);
      assert body == body[..n] + body[n..];
      assert Scan(body)[0] == body[n - 1] && Scan(body)[1..] == Scan(body[n..]);
    }
  }

  /**
   * Whatever the value, escaping it gives one well-formed quoted scalar, in which every backslash
   * begins an escaped backslash or an escaped quote.
   */
  lemma EscapeIsWellFormed(value: string)
    ensures IsQuoted(YamlEscape(value)) && IsPlainScalar(YamlEscape(value))
  {
    var text := UnwrapQuoted(value);
    EscapeIsOneScan(text);
    ScanUndoesEscape(text);
    EscapeIsPlain(text);
    InsideQuotes(EscapeText(text));
  }

  /** And every such scalar is reached: they are exactly the values that escaping leaves alone. */
  lemma EscapedExactly(value: string)
    ensures YamlEscape(value) == value <==> IsPlainScalar(value)
  {
    hide IsBody, IsPlainBody, EscapeEach, Scan, Unescape, EscapeText;
    EscapeIsWellFormed(value);
    if IsPlainScalar(value) {
      var body := value[1..|value| - 1];
      EscapeUndoesScan(body);
      UnescapeIsOneScan(body);
      EscapeIsOneScan(Scan(body));
      assert value == Quoted(body);
    }
  }

  lemma InsideQuotes(body: string)
    ensures var q := Quoted(body); |q| >= 2 && q[0] == '"' && q[|q| - 1] == '"' && q[1..|q| - 1] == body
  {
  }

  /** The scalar stands for the same text as the value did, whether the value was quoted or not. */
  lemma UnwrapUndoesEscape(value: string)
    ensures UnwrapQuoted(YamlEscape(value)) == UnwrapQuoted(value)
  {
    var text := UnwrapQuoted(value);
    EscapeIsWellFormed(value);
    InsideQuotes(EscapeText(text));
    EscapeIsOneScan(text);
    ScanUndoesEscape(text);
    UnescapeIsOneScan(EscapeText(text));
  }

  /** Escaping a second time changes nothing. */
  lemma EscapeIsIdempotent(value: string)
    ensures YamlEscape(YamlEscape(value)) == YamlEscape(value)
  {
    UnwrapUndoesEscape(value);
  }

  /** Two values give the same scalar exactly when they stand for the same text. */
  lemma EscapeSeparates(value: string, other: string)
    ensures YamlEscape(value) == YamlEscape(other) <==> UnwrapQuoted(value) == UnwrapQuoted(other)
  {
    UnwrapUndoesEscape(value);
    UnwrapUndoesEscape(other);
  }

  /** Prose that merely begins and ends with a quoted word is not a scalar, and comes through unchanged. */
  lemma QuotingProseIsKept(first: string, middle: string, last: string)
    requires '\\' !in first
    ensures var prose := Quoted(first) + middle + Quoted(last);
            UnwrapQuoted(prose) == prose && UnwrapQuoted(YamlEscape(prose)) == prose
  {
    var prose := Quoted(first) + middle + Quoted(last);
    var inside := prose[1..|prose| - 1];
    assert inside == first + (['"'] + middle + ['"'] + last);
    BareQuote(first, middle + ['"'] + last);
    assert inside == first + (['"'] + (middle + ['"'] + last));
    UnwrapUndoesEscape(prose);
  }

  lemma {:induction false} BareQuote(first: string, rest: string)
    requires '\\' !in first
    ensures !IsBody(first + (['"'] + rest))
  {
    if first != "" {
      assert (first + (['"'] + rest))[1..] == first[1..] + (['"'] + rest);
      BareQuote(first[1..], rest);
    }
  }
}

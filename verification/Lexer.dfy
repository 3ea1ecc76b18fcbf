/**
 The lexer (`src/lexer/mod.rs`): a lookahead buffer over the unread characters,
 the tokens in the order of the text, and the loops that read each of them.
 */
module Lexer {
  import opened Values
  import opened Delimiters
  import opened Literals

  // ----- positions -----

  datatype Pos = Pos(offset: nat, line: nat, col: nat)

  const START := Pos(0, 1, 1)

  /** The length of a character in UTF-8. */
  function Utf8Length(c: char): nat {
    if c as int < 0x80 then 1 else if c as int < 0x800 then 2 else if c as int < 0x1_0000 then 3 else 4
  }

  function Advance(p: Pos, c: char): Pos {
    var offset := p.offset + Utf8Length(c);
    if c == '\n' then Pos(offset, p.line + 1, 1)
    else if c == '\r' then Pos(offset, p.line, p.col)
    else Pos(offset, p.line, p.col + 1)
  }

  /** The position after `text`. */
  function PosAfter(text: seq<char>): Pos {
    if text == [] then START else Advance(PosAfter(text[..|text| - 1]), text[|text| - 1])
  }

  // ----- positions count the consumed text -----

  function Newlines(text: seq<char>): nat {
    multiset(text)['\n']
  }

  /** The length of `text` in UTF-8. */
  function Bytes(text: seq<char>): nat {
    if text == [] then 0 else Bytes(text[..|text| - 1]) + Utf8Length(text[|text| - 1])
  }

  /** The characters since the last newline, carriage returns apart. */
  function LastLine(text: seq<char>): seq<char> {
    if text == [] || text[|text| - 1] == '\n' then []
    else LastLine(text[..|text| - 1]) + (if text[|text| - 1] == '\r' then [] else [text[|text| - 1]])
  }

  lemma {:induction false} PositionCounts(text: seq<char>)
    ensures PosAfter(text) == Pos(Bytes(text), 1 + Newlines(text), 1 + |LastLine(text)|)
  {
    if text != [] {
      var before, c := text[..|text| - 1], text[|text| - 1];
      PositionCounts(before);
      assert text == before + [c];
    }
  }

  /** Whatever is consumed moves the position on: the spans of successive tokens do not overlap. */
  lemma {:induction false} PositionMovesOn(text: seq<char>, more: seq<char>)
    requires more != []
    ensures PosAfter(text).offset < PosAfter(text + more).offset
    decreases |more|
  {
    var before, c := more[..|more| - 1], more[|more| - 1];
    assert text + more == (text + before) + [c];
    assert (text + more)[..|text + more| - 1] == text + before;
    if before == [] {
      assert text + before == text;
    } else {
      PositionMovesOn(text, before);
    }
  }

  // ----- tokens -----

  /** What is left of a line comment's line: it stops before the newline. */
  function SkipLine(s: seq<char>): (r: seq<char>)
    ensures |r| <= |s|
  {
    if s == [] || s[0] == '\n' then s else SkipLine(s[1..])
  }

  /** The classes of characters, as the Unicode tables give them, and which decimals conversion refuses. */
  datatype Classes =
    Classes(space: char -> bool, starts: char -> bool, continues: char -> bool, refuses: seq<char> -> bool)

  /** What a token is: an identifier, keyword or wildcard, a number, a string, or punctuation. */
  datatype Kind =
    | Word(text: seq<char>)
    | Numeral(decimal: bool, text: seq<char>)
    | Chars(parts: seq<StrPart>)
    | Mark(text: seq<char>)

  /** A token's kind, what follows it, and what was reported in it. */
  datatype Lexed = Lexed(kind: Kind, rest: seq<char>, problems: seq<Message>)

  /** An identifier, of which `text` was read, and what follows it. */
  function ReadWord(s: seq<char>, text: seq<char>, classes: Classes): (r: (seq<char>, seq<char>))
    ensures Suffix(r.1, s)
    decreases |s|
  {
    if s != [] && classes.continues(s[0]) then
      var r := ReadWord(s[1..], text + [s[0]], classes);
      SuffixAfter(r.1, s, 1);
      r
    else SuffixOf(s, 0); (text, s)
  }

  /** Whether `c` and the character after it are one punctuation token. */
  predicate Pair(c: char, next: char) {
    match c
    case ':' => next == ':'
    case '.' => next == '.'
    case '-' => next == '>' || next == '='
    case '=' => next == '>' || next == '='
    case '!' => next == '='
    case '<' => next == '='
    case '>' => next == '='
    case '+' => next == '='
    case '*' => next == '='
    case '/' => next == '='
    case '%' => next == '='
    case '&' => next == '&'
    case '|' => next == '|' || next == '>'
    case '#' => next == '{'
    case _ => false
  }

  /** Punctuation by itself; a bare `&` or `#` is none. */
  predicate Single(c: char) {
    c in {'(', ')', '{', '}', '[', ']', ',', ';', ':', '.', '-', '=', '!', '?', '<', '>', '+', '*', '/', '%', '|'}
  }

  /** The punctuation that starts with `c`, with `s` behind it. */
  function LexMark(c: char, s: seq<char>): (r: Option<Lexed>)
    ensures r.Some? ==> Suffix(r.value.rest, s)
  {
    if s != [] && Pair(c, s[0]) then SuffixOf(s, 1); Some(Lexed(Mark([c, s[0]]), s[1..], []))
    else if Single(c) then SuffixOf(s, 0); Some(Lexed(Mark([c]), s, []))
    else None
  }

  /** A number converted; one that is refused is reported and counts as zero. */
  function Converted(n: Number, classes: Classes): (l: Lexed)
    ensures l.rest == n.rest
  {
    if n.decimal && classes.refuses(n.text) then Lexed(Numeral(true, ['0']), n.rest, n.problems + [InvalidDecimal])
    else Lexed(Numeral(n.decimal, n.text), n.rest, n.problems)
  }

  /** The token that starts with `c`, with `s` behind it, if any does. */
  function LexOne(c: char, s: seq<char>, classes: Classes): (r: Option<Lexed>)
    ensures r.Some? ==> Suffix(r.value.rest, s)
  {
    if classes.starts(c) then
      var w := ReadWord(s, [c], classes);
      Some(Lexed(Word(w.0), w.1, []))
    else if IsDigit(c) then
      Some(Converted(LexNumber(c, s), classes))
    else if c == '"' then
      var q := LexQuoted(s);
      Some(Lexed(Chars(q.parts), q.rest, q.problems))
    else LexMark(c, s)
  }

  /** The token at the start of `s`. */
  function LexHere(s: seq<char>, classes: Classes): (r: Option<Lexed>)
    requires s != []
    ensures r.Some? ==> Suffix(r.value.rest, s) && |r.value.rest| < |s|
  {
    var r := LexOne(s[0], s[1..], classes);
    if r.Some? then
      SuffixAfter(r.value.rest, s, 1);
      r
    else None
  }

  /** `s` from its first token on: white space, comments and characters that start no token are passed over. */
  function AtToken(s: seq<char>, classes: Classes): (r: seq<char>)
    ensures |r| <= |s|
    ensures r != [] ==> LexHere(r, classes).Some?
    decreases |s|
  {
    if s == [] then []
    else if classes.space(s[0]) then AtToken(s[1..], classes)
    else if Begins(s, '/', '/') then AtToken(SkipLine(s[2..]), classes)
    else if Begins(s, '/', '*') then
      match SkipComment(s[2..], 1)
      case None => []
      case Some(rest) => SkipCommentShortens(s[2..], 1); AtToken(rest, classes)
    else if LexHere(s, classes).None? then AtToken(s[1..], classes)
    else s
  }

  /** What is reported up to the first token. */
  function Passed(s: seq<char>, classes: Classes): seq<Message>
    decreases |s|
  {
    if s == [] then []
    else if classes.space(s[0]) then Passed(s[1..], classes)
    else if Begins(s, '/', '/') then Passed(SkipLine(s[2..]), classes)
    else if Begins(s, '/', '*') then
      match SkipComment(s[2..], 1)
      case None => [UnterminatedComment]
      case Some(rest) => SkipCommentShortens(s[2..], 1); Passed(rest, classes)
    else if LexHere(s, classes).None? then [UnexpectedCharacter] + Passed(s[1..], classes)
    else []
  }

  datatype Token = Lexeme(kind: Kind, start: Pos, end: Pos) | Eof(start: Pos, end: Pos)

  /** The token that covers `source[start..end]`. */
  function LexemeAt(source: seq<char>, kind: Kind, start: nat, end: nat): Token
    requires start <= end <= |source|
  {
    Lexeme(kind, PosAfter(source[..start]), PosAfter(source[..end]))
  }

  /** The next token when `rest` is what is left of `source`, and what is left then. */
  function Next(source: seq<char>, rest: seq<char>, classes: Classes): (r: (Token, seq<char>))
    requires |rest| <= |source|
    ensures if r.0.Lexeme? then |r.1| < |rest| else r.1 == []
  {
    var found := AtToken(rest, classes);
    var start := |source| - |found|;
    if found == [] then (Eof(PosAfter(source), PosAfter(source)), [])
    else
      var l := LexHere(found, classes).value;
      (LexemeAt(source, l.kind, start, |source| - |l.rest|), l.rest)
  }

  /** The tokens of `source` when `rest` is left of it. */
  function Tokens(source: seq<char>, rest: seq<char>, classes: Classes): (r: seq<Token>)
    requires |rest| <= |source|
    ensures r != []
    decreases |rest|
  {
    var (t, more) := Next(source, rest, classes);
    if t.Eof? then [t] else [t] + Tokens(source, more, classes)
  }

  /** What is reported up to the end of the first token of `rest`. */
  function NextReports(rest: seq<char>, classes: Classes): seq<Message> {
    var found := AtToken(rest, classes);
    Passed(rest, classes) + if found == [] then [] else LexHere(found, classes).value.problems
  }

  /** What is reported when `rest` is left of the source. */
  function Reports(source: seq<char>, rest: seq<char>, classes: Classes): seq<Message>
    requires |rest| <= |source|
    decreases |rest|
  {
    var (t, more) := Next(source, rest, classes);
    NextReports(rest, classes) + if t.Eof? then [] else Reports(source, more, classes)
  }

  lemma PositionNotBefore(source: seq<char>, m: nat, n: nat)
    requires m <= n <= |source|
    ensures PosAfter(source[..m]).offset <= PosAfter(source[..n]).offset
    ensures m < n ==> PosAfter(source[..m]).offset < PosAfter(source[..n]).offset
  {
    if m < n {
      PositionMovesOn(source[..m], source[m..n]);
      assert source[..m] + source[m..n] == source[..n];
    }
  }

  lemma NextInOrder(source: seq<char>, rest: seq<char>, classes: Classes) returns (a: nat, b: nat)
    requires |rest| <= |source|
    ensures |source| - |rest| <= a <= b <= |source|
    ensures var (t, more) := Next(source, rest, classes);
            && PosAfter(source[..|source| - |rest|]).offset <= t.start.offset
            && (t.Eof? ==> t.start == t.end == PosAfter(source))
            && (t.Lexeme? ==>
                  t.start.offset < t.end.offset && b == |source| - |more| && t == LexemeAt(source, t.kind, a, b))
  {
    hide PosAfter, AtToken, LexHere;
    var found := AtToken(rest, classes);
    a := |source| - |found|;
    if found == [] {
      b := a;
      PositionNotBefore(source, |source| - |rest|, |source|);
      assert source[..|source|] == source;
    } else {
      b := |source| - |LexHere(found, classes).value.rest|;
      PositionNotBefore(source, |source| - |rest|, a);
      PositionNotBefore(source, a, b);
    }
  }

  /** Tokens in the order of the text, the last and only the last an end of file. */
  predicate InOrder(ts: seq<Token>) {
    && ts != []
    && (forall i :: 0 <= i < |ts| ==> (ts[i].Eof? <==> i == |ts| - 1))
    && (forall i :: 0 <= i < |ts| - 1 ==> ts[i].start.offset < ts[i].end.offset <= ts[i + 1].start.offset)
  }

  lemma InOrderStep(t: Token, ts: seq<Token>)
    requires InOrder(ts) && t.Lexeme? && t.start.offset < t.end.offset <= ts[0].start.offset
    ensures InOrder([t] + ts)
  {
  }

  /**
   Whatever the text: the list ends in its only end-of-file token, which
   stands at the end; every other token covers some text; spans are in order and
   do not overlap.
   */
  lemma {:induction false} TokensInOrder(source: seq<char>, rest: seq<char>, classes: Classes)
    requires |rest| <= |source|
    ensures var ts := Tokens(source, rest, classes);
            && InOrder(ts)
            && ts[|ts| - 1] == Eof(PosAfter(source), PosAfter(source))
            && PosAfter(source[..|source| - |rest|]).offset <= ts[0].start.offset
    decreases |rest|
  {
    hide PosAfter, AtToken, InOrder, LexemeAt;
    var a, b := NextInOrder(source, rest, classes);
    var (t, more) := Next(source, rest, classes);
    hide Next;
    if t.Eof? {
      OneInOrder(t);
    } else {
      TokensInOrder(source, more, classes);
      EndsAt(source, t.kind, a, b);
      InOrderStep(t, Tokens(source, more, classes));
    }
  }

  lemma OneInOrder(t: Token)
    requires t.Eof?
    ensures InOrder([t])
  {
  }

  lemma EndsAt(source: seq<char>, kind: Kind, a: nat, b: nat)
    requires a <= b <= |source|
    ensures LexemeAt(source, kind, a, b).end == PosAfter(source[..b])
  {
  }

  // ----- the lexer -----

  datatype SourceError = SourceError(start: Pos, end: Pos, message: Message)

  /** What an interpolation opened at `start` reports when the text ends at `end`. */
  function Complaints(result: Collected, start: Pos, end: Pos): seq<SourceError> {
    match result.end
    case Ended(_) => []
    case Missing(inString) =>
      (if inString then [SourceError(end, end, UnterminatedString)] else [])
      + [SourceError(start, end, UnterminatedInterpolation)]
  }

  // What passing over one more character does to the search for a token.

  lemma AtTokenStep(s: seq<char>, classes: Classes)
    ensures AtToken(s, classes) ==
              if s == [] then []
              else if classes.space(s[0]) then AtToken(s[1..], classes)
              else if Begins(s, '/', '/') then AtToken(SkipLine(s[2..]), classes)
              else if Begins(s, '/', '*') then
                (match SkipComment(s[2..], 1) case None => [] case Some(rest) => AtToken(rest, classes))
              else if LexHere(s, classes).None? then AtToken(s[1..], classes)
              else s
    ensures Passed(s, classes) ==
              if s == [] then []
              else if classes.space(s[0]) then Passed(s[1..], classes)
              else if Begins(s, '/', '/') then Passed(SkipLine(s[2..]), classes)
              else if Begins(s, '/', '*') then
                (match SkipComment(s[2..], 1)
                 case None => [UnterminatedComment]
                 case Some(rest) => Passed(rest, classes))
              else if LexHere(s, classes).None? then [UnexpectedCharacter] + Passed(s[1..], classes)
              else []
    ensures Begins(s, '/', '*') && SkipComment(s[2..], 1).Some? ==> |SkipComment(s[2..], 1).value| < |s|
  {
    hide SkipComment, SkipLine;
    if Begins(s, '/', '*') && SkipComment(s[2..], 1).Some? {
      SkipCommentShortens(s[2..], 1);
    }
  }

  /** A comment, whatever it nests, separates tokens as white space does. */
  lemma CommentIsSpace(ps: seq<Piece>, rest: seq<char>, classes: Classes)
    requires Clean(ps) && !classes.space('/')
    ensures AtToken(['/', '*'] + (Text(ps) + (CLOSE + rest)), classes) == AtToken(rest, classes)
    ensures Passed(['/', '*'] + (Text(ps) + (CLOSE + rest)), classes) == Passed(rest, classes)
  {
    var inner := Text(ps) + (CLOSE + rest);
    var s := ['/', '*'] + inner;
    AtTokenStep(s, classes);
    CommentCloses(ps, rest, 1);
    hide SkipComment, AtToken, Passed, Text, Clean;
    assert s[2..] == inner;
  }

  lemma SameNext(source: seq<char>, a: seq<char>, b: seq<char>, classes: Classes)
    requires |a| <= |source| && |b| <= |source| && AtToken(a, classes) == AtToken(b, classes)
    ensures Next(source, a, classes) == Next(source, b, classes)
  {
    hide AtToken, PosAfter;
  }

  lemma EndReached(source: seq<char>, classes: Classes)
    ensures Next(source, [], classes) == (Eof(PosAfter(source), PosAfter(source)), [])
  {
    hide PosAfter;
  }

  lemma NothingPassed(classes: Classes)
    ensures Passed([], classes) == []
  {
  }

  lemma ReportsAtEnd(s: seq<char>, classes: Classes)
    requires AtToken(s, classes) == []
    ensures NextReports(s, classes) == Passed(s, classes)
  {
    hide AtToken, Passed;
  }

  lemma ReportsAtToken(found: seq<char>, s: seq<char>, classes: Classes)
    requires found != [] && AtToken(s, classes) == found
    ensures LexHere(found, classes).Some?
    ensures NextReports(s, classes) == Passed(s, classes) + LexHere(found, classes).value.problems
  {
    hide AtToken, Passed, LexHere;
  }

  lemma TokenReached(source: seq<char>, s: seq<char>, classes: Classes)
    requires |s| <= |source| && s != [] && AtToken(s, classes) == s
    ensures LexHere(s, classes).Some?
    ensures var l := LexHere(s, classes).value;
            Next(source, s, classes) == (LexemeAt(source, l.kind, |source| - |s|, |source| - |l.rest|), l.rest)
  {
    hide PosAfter, LexHere;
  }

  /** What was reported, in order. */
  function Messages(errors: seq<SourceError>): seq<Message> {
    seq(|errors|, i requires 0 <= i < |errors| => errors[i].message)
  }

  lemma MessagesAppend(errors: seq<SourceError>, more: seq<SourceError>)
    ensures Messages(errors + more) == Messages(errors) + Messages(more)
  {
  }

  lemma ComplaintMessages(result: Collected, start: Pos, end: Pos)
    ensures Messages(Complaints(result, start, end)) == Complaint(result)
  {
  }

  /** A step of the loop that reads an identifier. */
  lemma WordStep(s: seq<char>, text: seq<char>, classes: Classes)
    ensures ReadWord(s, text, classes) ==
              if s != [] && classes.continues(s[0]) then ReadWord(s[1..], text + [s[0]], classes) else (text, s)
  {
  }

  lemma DigitsStep(s: seq<char>, digits: seq<char>)
    ensures ReadDigits(s, digits) ==
              if s != [] && IsDigit(s[0]) then ReadDigits(s[1..], digits + [s[0]])
              else if |s| >= 2 && s[0] == '_' && IsDigit(s[1]) then ReadDigits(s[1..], digits)
              else Run(digits, s)
  {
  }

  lemma ExponentDigitsStep(s: seq<char>, digits: seq<char>)
    ensures ReadExponentDigits(s, digits) ==
              if s != [] && IsDigit(s[0]) then ReadExponentDigits(s[1..], digits + [s[0]]) else Run(digits, s)
  {
  }

  lemma HexStep(s: seq<char>, hex: seq<char>)
    ensures hex + HexRun(s) == if s == [] || !IsHexDigit(s[0]) then hex else (hex + [s[0]]) + HexRun(s[1..])
  {
    if s == [] || !IsHexDigit(s[0]) {
      assert hex + [] == hex;
    } else {
      Regroup(hex, [s[0]], HexRun(s[1..]));
    }
  }

  lemma HexSplit(s: seq<char>, hex: seq<char>)
    requires s != [] && hex == HexRun(s[1..])
    ensures s[1..][|hex|..] == s[1 + |hex|..]
    ensures 1 + |hex| < |s| ==>
              s[1..][|hex|..] != [] && s[1..][|hex|..][0] == s[1 + |hex|] && s[1 + |hex|..][1..] == s[2 + |hex|..]
    ensures 1 + |hex| == |s| ==> s[1..][|hex|..] == []
  {
  }

  lemma LexTripleStep(s: seq<char>, cur: seq<char>, parts: seq<StrPart>, problems: seq<Message>)
    ensures LexTriple(s, cur, parts, problems) ==
              if ThreeQuotes(s) then Scanned(Finished(parts, cur), s[3..], problems)
              else if s == [] then Scanned(Finished(parts, cur), [], problems + [UnterminatedLiteral])
              else if s[0] == '\\' then
                if |s| == 1 then Scanned(Finished(parts, cur), [], problems)
                else
                  var e := EscapeBy(TripleEscape(s[1]), s[2..]);
                  LexTriple(s[2..], cur + e.added, parts, problems + e.problems)
              else if s[0] == '{' then
                var c := Collect(s[1..], 1);
                LexTriple(AfterCollected(c), [], Flushed(parts, cur) + [Expr(c.text)], problems + Complaint(c))
              else LexTriple(s[1..], cur + [s[0]], parts, problems)
  {
    hide EscapeBy, TripleEscape, Collect, Finished, Flushed, AfterCollected, Complaint;
  }

  lemma HereIs(s: seq<char>, classes: Classes)
    requires s != []
    ensures LexHere(s, classes) == LexOne(s[0], s[1..], classes)
  {
    hide LexOne;
  }

  lemma LexemeIs(source: seq<char>, kind: Kind, a: nat, b: nat)
    requires a <= b <= |source|
    ensures LexemeAt(source, kind, a, b) == Lexeme(kind, PosAfter(source[..a]), PosAfter(source[..b]))
  {
    hide PosAfter;
  }

  class Lexer {
    var chars: seq<char>
    var peekBuf: seq<char>
    var pos: Pos
    var errors: seq<SourceError>
    ghost var consumed: seq<char>

    ghost predicate Valid()
      reads this
    {
      pos == PosAfter(consumed)
    }

    /** The characters not yet consumed: the buffered ones first. */
    ghost function Rest(): seq<char>
      reads this
    {
      peekBuf + chars
    }

    ghost function Source(): seq<char>
      reads this
    {
      consumed + Rest()
    }

    constructor (source: seq<char>)
      ensures Valid() && Rest() == source && Source() == source && errors == []
    {
      chars, peekBuf, pos, errors, consumed := source, [], START, [], [];
    }

    method Fill(n: nat)
      modifies this`chars, this`peekBuf
      ensures Rest() == old(Rest())
      ensures |peekBuf| >= n || chars == []
      ensures old(peekBuf) <= peekBuf
      ensures |peekBuf| == old(|peekBuf|) || |peekBuf| <= n
    {
      while |peekBuf| < n && chars != []
        invariant Rest() == old(Rest()) && old(peekBuf) <= peekBuf
        invariant |peekBuf| == old(|peekBuf|) || |peekBuf| <= n
        decreases |chars|
      {
        ghost var rest := Rest();
        peekBuf, chars := peekBuf + [chars[0]], chars[1..];
        assert Rest() == rest;
      }
    }

    method Peek() returns (c: Option<char>)
      modifies this`chars, this`peekBuf
      ensures Rest() == old(Rest()) && c == First(Rest())
      ensures Valid() == old(Valid()) && Source() == old(Source())
    {
      Fill(1);
      c := First(peekBuf);
    }

    method Peek2() returns (c: Option<char>)
      modifies this`chars, this`peekBuf
      ensures Rest() == old(Rest()) && c == if |Rest()| < 2 then None else Some(Rest()[1])
      ensures Valid() == old(Valid()) && Source() == old(Source())
    {
      Fill(2);
      c := if |peekBuf| < 2 then None else Some(peekBuf[1]);
    }

    /** Takes one character from the front of what is left, and the position with it. */
    method Bump() returns (c: Option<char>)
      requires Valid()
      modifies this`chars, this`peekBuf, this`pos, this`consumed
      ensures Valid() && Source() == old(Source()) && c == First(old(Rest()))
      ensures if old(Rest()) == [] then Rest() == [] else Rest() == old(Rest())[1..]
    {
      Fill(1);
      c := First(peekBuf);
      if c.Some? {
        assert Source() == (consumed + [peekBuf[0]]) + (peekBuf[1..] + chars);
        peekBuf, pos, consumed := peekBuf[1..], Advance(pos, c.value), consumed + [c.value];
      }
    }

    method Error(start: Pos, end: Pos, message: Message)
      modifies this`errors
      ensures errors == old(errors) + [SourceError(start, end, message)]
      ensures Valid() == old(Valid()) && Rest() == old(Rest()) && Source() == old(Source())
    {
      errors := errors + [SourceError(start, end, message)];
    }

    /** Eats a comment whose opening delimiter was read, to the delimiter that closes it or to the end of the text. */
    method EatBlockComment(start: Pos)
      requires Valid()
      modifies this
      ensures Valid() && Source() == old(Source())
      ensures match SkipComment(old(Rest()), 1)
              case Some(rest) => Rest() == rest && errors == old(errors)
              case None =>
                && Rest() == []
                && errors == old(errors) + [SourceError(start, PosAfter(Source()), UnterminatedComment)]
    {
      ghost var text := Rest();
      var depth := 1;
      while true
        invariant Valid() && Source() == old(Source()) && errors == old(errors)
        invariant depth > 0 && SkipComment(Rest(), depth) == SkipComment(text, 1)
        decreases |Rest()|
      {
        ghost var before := Rest();
        var c := Bump();
        if c.None? { break; }
        SkipStep(before, depth);
        var next := Peek();
        if c.value == '/' && next == Some('*') {
          var _ := Bump();
          depth := depth + 1;
        } else if c.value == '*' && next == Some('/') {
          var _ := Bump();
          depth := depth - 1;
          if depth == 0 { return; }
        }
      }
      assert consumed == Source();
      Error(start, pos, UnterminatedComment);
    }

    /** Copies a string literal whose opening quote was read behind `raw`. */
    method SkipNestedString(raw: seq<char>) returns (out: seq<char>)
      requires Valid()
      modifies this
      ensures Valid() && Source() == old(Source())
      ensures out == raw + SkipString(old(Rest())).0
      ensures match SkipString(old(Rest())).1
              case Some(rest) => Rest() == rest && errors == old(errors)
              case None =>
                && Rest() == []
                && errors == old(errors) + [SourceError(PosAfter(Source()), PosAfter(Source()), UnterminatedString)]
    {
      hide SkipString, PosAfter, Advance;
      ghost var text := Rest();
      out := raw;
      while true
        invariant Valid() && Source() == old(Source()) && errors == old(errors)
        invariant Copied(out, Rest()) == Copied(raw, text)
        decreases |Rest()|
      {
        ghost var before := Rest();
        CopiesOne(out, before);
        var c := Bump();
        if c.None? {
          AllConsumed();
          Error(pos, pos, UnterminatedString);
          return;
        }
        out := out + [c.value];
        if c.value == '\\' {
          var e := Bump();
          if e.Some? {
            out := out + [e.value];
          }
        } else if c.value == '"' {
          return;
        }
      }
    }

    /** Collects an interpolation whose opening brace was read. */
    method CollectInterpolation(start: Pos) returns (raw: seq<char>)
      requires Valid()
      modifies this
      ensures Valid() && Source() == old(Source())
      ensures var result := Collect(old(Rest()), 1);
              && raw == result.text
              && errors == old(errors) + Complaints(result, start, PosAfter(Source()))
              && Rest() == match result.end case Ended(rest) => rest case Missing(_) => []
    {
      hide Collect, SkipString, PosAfter, Advance, Behind;
      ghost var text := Rest();
      ghost var missed := [];
      var depth := 1;
      raw := [];
      BehindNothing(Collect(text, 1));
      while true
        invariant Valid() && Source() == old(Source()) && depth > 0
        invariant missed == [] ==> Behind(raw, Collect(Rest(), depth)) == Collect(text, 1)
        invariant missed != [] ==> Rest() == [] && Collect(text, 1) == Collected(raw, Missing(true))
        invariant missed == [] || missed == [SourceError(PosAfter(Source()), PosAfter(Source()), UnterminatedString)]
        invariant errors == old(errors) + missed
        decreases |Rest()|
      {
        ghost var before := Rest();
        var c := Bump();
        if c.None? {
          CollectsEnd(raw, depth);
          break;
        }
        if c.value == '"' {
          CollectsString(before, raw, depth);
          raw := raw + ['"'];
          raw := SkipNestedString(raw);
          if SkipString(before[1..]).1.None? {
            missed := [SourceError(PosAfter(Source()), PosAfter(Source()), UnterminatedString)];
          }
        } else if c.value == '{' {
          CollectsOne(before, raw, depth);
          depth := depth + 1;
          raw := raw + ['{'];
        } else if c.value == '}' {
          CollectsOne(before, raw, depth);
          depth := depth - 1;
          if depth == 0 { break; }
          raw := raw + ['}'];
        } else {
          CollectsOne(before, raw, depth);
          raw := raw + [c.value];
        }
      }
      if depth != 0 {
        AllConsumed();
        Error(start, pos, UnterminatedInterpolation);
      }
    }

    /** Drops what is left of a line comment. */
    method EatLineComment()
      requires Valid()
      modifies this`chars, this`peekBuf, this`pos, this`consumed
      ensures Valid() && Source() == old(Source()) && Rest() == SkipLine(old(Rest()))
    {
      while true
        invariant Valid() && Source() == old(Source()) && SkipLine(Rest()) == SkipLine(old(Rest()))
        decreases |Rest()|
      {
        var c := Peek();
        if c.None? || c.value == '\n' { break; }
        var _ := Bump();
      }
    }

    /** Reads an identifier whose first character was read. */
    method EatWord(first: char, classes: Classes) returns (text: seq<char>)
      requires Valid()
      modifies this`chars, this`peekBuf, this`pos, this`consumed
      ensures Valid() && Source() == old(Source())
      ensures (text, Rest()) == ReadWord(old(Rest()), [first], classes)
    {
      hide ReadWord, PosAfter, Advance;
      text := [first];
      while true
        invariant Valid() && Source() == old(Source())
        invariant ReadWord(Rest(), text, classes) == ReadWord(old(Rest()), [first], classes)
        decreases |Rest()|
      {
        WordStep(Rest(), text, classes);
        var c := Peek();
        if c.None? || !classes.continues(c.value) { break; }
        var _ := Bump();
        text := text + [c.value];
      }
    }

    /** Reads digits, and underscores before digits. */
    method EatDigits(before: seq<char>) returns (digits: seq<char>)
      requires Valid()
      modifies this`chars, this`peekBuf, this`pos, this`consumed
      ensures Valid() && Source() == old(Source())
      ensures Run(digits, Rest()) == ReadDigits(old(Rest()), before)
    {
      hide ReadDigits, PosAfter, Advance, IsDigit, Suffix, Valid, Rest, Source;
      digits := before;
      while true
        invariant Valid() && Source() == old(Source())
        invariant ReadDigits(Rest(), digits) == ReadDigits(old(Rest()), before)
        decreases |Rest()|
      {
        DigitsStep(Rest(), digits);
        var c := Peek();
        if c.None? { break; }
        if IsDigit(c.value) {
          var _ := Bump();
          digits := digits + [c.value];
        } else {
          var d := Peek2();
          if c.value != '_' || d.None? || !IsDigit(d.value) { break; }
          var _ := Bump();
        }
      }
    }

    method EatExponentDigits() returns (digits: seq<char>)
      requires Valid()
      modifies this`chars, this`peekBuf, this`pos, this`consumed
      ensures Valid() && Source() == old(Source())
      ensures Run(digits, Rest()) == ReadExponentDigits(old(Rest()), [])
    {
      hide ReadExponentDigits, PosAfter, Advance;
      digits := [];
      while true
        invariant Valid() && Source() == old(Source())
        invariant ReadExponentDigits(Rest(), digits) == ReadExponentDigits(old(Rest()), [])
        decreases |Rest()|
      {
        ExponentDigitsStep(Rest(), digits);
        var c := Peek();
        if c.None? || !IsDigit(c.value) { break; }
        var _ := Bump();
        digits := digits + [c.value];
      }
    }

    /** Reads an exponent, if there is one; its marker is read even if no digits follow. */
    method MaybeExponent() returns (text: Option<seq<char>>)
      requires Valid()
      modifies this
      ensures Valid() && Source() == old(Source())
      ensures var e := ReadExponent(old(Rest()));
              text == e.text && Rest() == e.rest && Messages(errors) == Messages(old(errors)) + e.problems
    {
      hide ReadExponentDigits, PosAfter, Advance, Messages, Suffix, Valid, Rest, Source;
      ghost var s := Rest();
      var c := Peek();
      if c.None? || c.value !in {'e', 'E'} {
        assert Messages(errors) + [] == Messages(errors);
        return None;
      }
      var start := pos;
      var _ := Bump();
      var buf := [c.value];
      var sign := Peek();
      if sign.Some? && sign.value in {'+', '-'} {
        var _ := Bump();
        buf := buf + [sign.value];
        assert s[1..][1..] == s[2..] && buf == s[..2];
      } else {
        assert buf == s[..1];
      }
      var digits := EatExponentDigits();
      text := Some(buf + digits);
      if digits == [] {
        assert buf + digits == buf;
        Error(start, pos, MissingExponent);
        Reported(old(errors), SourceError(start, pos, MissingExponent));
      } else {
        assert Messages(errors) + [] == Messages(errors);
      }
    }

    lemma Reported(before: seq<SourceError>, e: SourceError)
      ensures Messages(before + [e]) == Messages(before) + [e.message]
    {
      MessagesAppend(before, [e]);
    }

    /** Reads a number whose first digit was read. */
    method ReadNumber(first: char, start: Pos, classes: Classes) returns (kind: Kind)
      requires Valid()
      modifies this
      ensures Valid() && Source() == old(Source())
      ensures var n := Converted(LexNumber(first, old(Rest())), classes);
              && kind == n.kind && Rest() == n.rest
              && Messages(errors) == Messages(old(errors)) + n.problems
    {
      hide ReadDigits, ReadExponent, PosAfter, Advance, Messages, Suffix, Valid, Rest, Source;
      var whole := EatDigits([first]);
      var point := Peek();
      var digit := Peek2();
      var decimal, text := false, whole;
      if point == Some('.') && digit.Some? && IsDigit(digit.value) {
        var _ := Bump();
        var frac := EatDigits([]);
        decimal, text := true, whole + ['.'] + frac;
      }
      var exp := MaybeExponent();
      if exp.Some? {
        decimal, text := true, text + exp.value;
      }
      kind := Numeral(decimal, text);
      if decimal && classes.refuses(text) {
        ghost var before := errors;
        Error(start, pos, InvalidDecimal);
        Reported(before, SourceError(start, pos, InvalidDecimal));
        kind := Numeral(true, ['0']);
      }
    }

    /** Reads a `\u` escape behind its `u`. */
    method ReadUnicodeEscape(start: Pos) returns (added: seq<char>)
      requires Valid()
      modifies this
      ensures Valid() && Source() == old(Source())
      ensures var e := UnicodeEscape(old(Rest()));
              added == e.added && Rest() == e.rest && Messages(errors) == Messages(old(errors)) + e.problems
    {
      hide HexRun, FromHex, PosAfter, Advance, Messages, Suffix, Valid, Rest, Source, IsHexDigit;
      ghost var s := Rest();
      var c := Peek();
      if c != Some('{') {
        Error(start, pos, ExpectedBrace);
        Reported(old(errors), SourceError(start, pos, ExpectedBrace));
        return [];
      }
      var _ := Bump();
      var hex := ReadHex();
      HexSplit(s, hex);
      CloseBrace();
      ghost var bad := if 1 + |hex| < |s| && s[1 + |hex|] != '}' then [InvalidHexDigit] else [];
      assert Messages(errors) == Messages(old(errors)) + bad;
      added := FromDigits(hex, start);
      Regrouped(Messages(old(errors)), bad);
    }

    /** Reads the brace behind the digits of an escape, or reports what stands there instead. */
    method CloseBrace()
      requires Valid()
      modifies this
      ensures Valid() && Source() == old(Source())
      ensures var s := old(Rest());
              && Rest() == (if s != [] && s[0] == '}' then s[1..] else s)
              && Messages(errors) == Messages(old(errors)) + if s != [] && s[0] != '}' then [InvalidHexDigit] else []
    {
      hide PosAfter, Advance, Messages, Valid, Rest, Source;
      assert Messages(errors) + [] == Messages(errors);
      var close := Peek();
      if close == Some('}') {
        var _ := Bump();
      } else if close.Some? {
        Error(pos, pos, InvalidHexDigit);
        Reported(old(errors), SourceError(pos, pos, InvalidHexDigit));
      }
    }

    /** The character with these digits, or the report that there is none. */
    method FromDigits(hex: seq<char>, start: Pos) returns (added: seq<char>)
      requires Valid() && AllHex(hex)
      modifies this`errors
      ensures Valid() && Source() == old(Source()) && Rest() == old(Rest())
      ensures var c := FromHex(hex);
              && added == (if c.Some? then [c.value] else [])
              && Messages(errors) == Messages(old(errors)) + if c.Some? then [] else [InvalidUnicode]
    {
      hide FromHex, PosAfter, Advance, Messages, Valid, Rest, Source;
      assert Messages(errors) + [] == Messages(errors);
      var found := FromHex(hex);
      if found.Some? {
        added := [found.value];
      } else {
        added := [];
        Error(start, pos, InvalidUnicode);
        Reported(old(errors), SourceError(start, pos, InvalidUnicode));
      }
    }

    method ReadHex() returns (hex: seq<char>)
      requires Valid()
      modifies this`chars, this`peekBuf, this`pos, this`consumed
      ensures Valid() && Source() == old(Source())
      ensures hex == HexRun(old(Rest())) && Rest() == old(Rest())[|hex|..]
    {
      hide HexRun, PosAfter, Advance;
      ghost var s := Rest();
      hex := [];
      assert [] + HexRun(s) == HexRun(s);
      while true
        invariant Valid() && Source() == old(Source())
        invariant |hex| <= |s| && Rest() == s[|hex|..] && hex + HexRun(Rest()) == HexRun(s)
        decreases |Rest()|
      {
        HexStep(Rest(), hex);
        var c := Peek();
        if c.None? || !IsHexDigit(c.value) { break; }
        assert s[|hex|..][1..] == s[|hex| + 1..];
        var _ := Bump();
        hex := hex + [c.value];
      }
    }

    /** Reads what follows a backslash, of which `c` was read. */
    method ReadEscape(c: char, start: Pos) returns (added: seq<char>)
      requires Valid()
      modifies this
      ensures Valid() && Source() == old(Source())
      ensures var e := StringEscape([c] + old(Rest()));
              added == e.added && Rest() == e.rest && Messages(errors) == Messages(old(errors)) + e.problems
    {
      hide UnicodeEscape, PosAfter, Advance, Messages;
      assert ([c] + Rest())[1..] == Rest();
      if c == 'u' {
        added := ReadUnicodeEscape(start);
      } else {
        added := KnownEscape(SimpleEscape(c), start);
      }
    }

    /** What an escape of one character adds, or the report that there is none. */
    method KnownEscape(known: Option<char>, start: Pos) returns (added: seq<char>)
      requires Valid()
      modifies this`errors
      ensures Valid() && Source() == old(Source()) && Rest() == old(Rest())
      ensures var e := EscapeBy(known, Rest());
              added == e.added && Messages(errors) == Messages(old(errors)) + e.problems
    {
      hide PosAfter, Advance, Messages;
      if known.Some? {
        assert Messages(errors) + [] == Messages(errors);
        added := [known.value];
      } else {
        Error(start, pos, UnknownEscape);
        Reported(old(errors), SourceError(start, pos, UnknownEscape));
        added := [];
      }
    }

    /** Reads an interpolation whose brace was read, as a part of a string. */
    method ReadInterpolation() returns (raw: seq<char>)
      requires Valid()
      modifies this
      ensures Valid() && Source() == old(Source())
      ensures var c := Collect(old(Rest()), 1);
              raw == c.text && Rest() == AfterCollected(c) && Messages(errors) == Messages(old(errors)) + Complaint(c)
    {
      hide Collect, PosAfter, Advance, Messages, Complaints, Complaint;
      ghost var c := Collect(Rest(), 1);
      var start := pos;
      raw := CollectInterpolation(start);
      MessagesAppend(old(errors), Complaints(c, start, PosAfter(Source())));
      ComplaintMessages(c, start, PosAfter(Source()));
    }

    /** Reads a string whose opening quote was read. */
    method ReadString(start: Pos) returns (parts: seq<StrPart>)
      requires Valid()
      modifies this
      ensures Valid() && Source() == old(Source())
      ensures var r := LexString(old(Rest()), [], [], []);
              parts == r.parts && Rest() == r.rest && Messages(errors) == Messages(old(errors)) + r.problems
    {
      hide LexString, Valid, Rest, Source, Collect, StringEscape, Finished, Flushed, PosAfter, Advance, Messages;
      hide AfterCollected, Complaint;
      ghost var all := LexString(Rest(), [], [], []);
      ghost var problems := [];
      var cur := [];
      parts := [];
      assert Messages(errors) + [] == Messages(errors);
      while true
        invariant Valid() && Source() == old(Source())
        invariant LexString(Rest(), cur, parts, problems) == all && Messages(errors) == Messages(old(errors)) + problems
        decreases |Rest()|
      {
        ghost var s, before := Rest(), errors;
        LexStringStep(s, cur, parts, problems);
        Regrouped(Messages(old(errors)), problems);
        var c := Bump();
        if c.None? {
          Error(start, pos, UnterminatedLiteral);
          Reported(before, SourceError(start, pos, UnterminatedLiteral));
          break;
        } else if c.value == '"' {
          break;
        } else if c.value == '\\' {
          var escStart := pos;
          var e := Bump();
          if e.None? {
            Error(escStart, pos, UnterminatedEscape);
            Reported(before, SourceError(escStart, pos, UnterminatedEscape));
            break;
          }
          assert [e.value] + Rest() == s[1..];
          problems := problems + StringEscape(s[1..]).problems;
          var added := ReadEscape(e.value, escStart);
          cur := cur + added;
        } else if c.value == '{' {
          CollectSuffix(s[1..], 1);
          problems := problems + Complaint(Collect(s[1..], 1));
          var raw := ReadInterpolation();
          parts, cur := Flushed(parts, cur) + [Expr(raw)], [];
        } else {
          cur := cur + [c.value];
        }
      }
      parts := Finished(parts, cur);
    }

    lemma Regrouped(a: seq<Message>, b: seq<Message>)
      ensures forall c: seq<Message> :: (a + b) + c == a + (b + c)
    {
    }

    /** Whether the next three characters are quotes. */
    method AtThreeQuotes() returns (three: bool)
      modifies this`chars, this`peekBuf
      ensures three == ThreeQuotes(Rest()) && Rest() == old(Rest())
      ensures Valid() == old(Valid()) && Source() == old(Source())
    {
      three := false;
      var c := Peek();
      var d := Peek2();
      if c == Some('"') && d == Some('"') {
        Fill(3);
        three := |peekBuf| > 2 && peekBuf[2] == '"';
      }
    }

    /** Reads a string whose three opening quotes were read. */
    method ReadTriple(start: Pos) returns (parts: seq<StrPart>)
      requires Valid()
      modifies this
      ensures Valid() && Source() == old(Source())
      ensures var r := LexTriple(WithoutNewline(old(Rest())), [], [], []);
              parts == r.parts && Rest() == r.rest && Messages(errors) == Messages(old(errors)) + r.problems
    {
      hide LexTriple, PosAfter, Advance, Messages;
      SkipNewline();
      parts := ReadTripleBody(start);
    }

    method SkipNewline()
      requires Valid()
      modifies this`chars, this`peekBuf, this`pos, this`consumed
      ensures Valid() && Source() == old(Source()) && Rest() == WithoutNewline(old(Rest()))
    {
      hide PosAfter, Advance;
      var c := Peek();
      var d := Peek2();
      if c == Some('\n') {
        var _ := Bump();
      } else if c == Some('\r') && d == Some('\n') {
        var _ := Bump();
        var _ := Bump();
      }
    }

    method ReadTripleBody(start: Pos) returns (parts: seq<StrPart>)
      requires Valid()
      modifies this
      ensures Valid() && Source() == old(Source())
      ensures var r := LexTriple(old(Rest()), [], [], []);
              parts == r.parts && Rest() == r.rest && Messages(errors) == Messages(old(errors)) + r.problems
    {
      hide LexTriple, Valid, Rest, Source, Collect, EscapeBy, TripleEscape, Finished, Flushed, PosAfter, Advance;
      hide Messages, AfterCollected, Complaint;
      ghost var all := LexTriple(Rest(), [], [], []);
      ghost var problems := [];
      var cur := [];
      parts := [];
      assert Messages(errors) + [] == Messages(errors);
      while true
        invariant Valid() && Source() == old(Source())
        invariant LexTriple(Rest(), cur, parts, problems) == all && Messages(errors) == Messages(old(errors)) + problems
        decreases |Rest()|
      {
        ghost var s, before := Rest(), errors;
        LexTripleStep(s, cur, parts, problems);
        Regrouped(Messages(old(errors)), problems);
        var three := AtThreeQuotes();
        if three {
          var _ := Bump();
          var _ := Bump();
          var _ := Bump();
          break;
        }
        var c := Bump();
        if c.None? {
          Error(start, pos, UnterminatedLiteral);
          Reported(before, SourceError(start, pos, UnterminatedLiteral));
          break;
        } else if c.value == '\\' {
          var escStart := pos;
          var e := Bump();
          if e.None? { break; }
          problems := problems + EscapeBy(TripleEscape(s[1]), s[2..]).problems;
          var added := KnownEscape(TripleEscape(e.value), escStart);
          cur := cur + added;
        } else if c.value == '{' {
          CollectSuffix(s[1..], 1);
          problems := problems + Complaint(Collect(s[1..], 1));
          var raw := ReadInterpolation();
          parts, cur := Flushed(parts, cur) + [Expr(raw)], [];
        } else {
          cur := cur + [c.value];
        }
      }
      parts := Finished(parts, cur);
    }

    /** Reads a string of either kind, whose first quote was read. */
    method ReadQuoted(start: Pos) returns (kind: Kind)
      requires Valid()
      modifies this
      ensures Valid() && Source() == old(Source())
      ensures var q := LexQuoted(old(Rest()));
              kind == Chars(q.parts) && Rest() == q.rest && Messages(errors) == Messages(old(errors)) + q.problems
    {
      hide LexString, LexTriple, WithoutNewline, PosAfter, Advance, Messages, Suffix, Valid, Rest, Source;
      var c := Peek();
      var d := Peek2();
      var parts;
      if c == Some('"') && d == Some('"') {
        var _ := Bump();
        var _ := Bump();
        parts := ReadTriple(start);
      } else {
        parts := ReadString(start);
      }
      kind := Chars(parts);
    }

    /** Reads punctuation whose first character was read, if it is punctuation. */
    method ReadMark(first: char) returns (kind: Option<Kind>)
      requires Valid()
      modifies this`chars, this`peekBuf, this`pos, this`consumed
      ensures Valid() && Source() == old(Source())
      ensures match LexMark(first, old(Rest()))
              case None => kind.None? && Rest() == old(Rest())
              case Some(l) => kind == Some(l.kind) && Rest() == l.rest && l.problems == []
    {
      hide PosAfter, Advance, Single, Pair;
      var next := Peek();
      if next.Some? && Pair(first, next.value) {
        var _ := Bump();
        kind := Some(Mark([first, next.value]));
      } else {
        kind := if Single(first) then Some(Mark([first])) else None;
      }
    }

    /** Reads the token that starts with `first`, which was read, if one does. */
    method ReadToken(first: char, start: Pos, classes: Classes) returns (kind: Option<Kind>)
      requires Valid()
      modifies this
      ensures Valid() && Source() == old(Source())
      ensures match LexOne(first, old(Rest()), classes)
              case None => kind.None? && Rest() == old(Rest()) && errors == old(errors)
              case Some(l) =>
                kind == Some(l.kind) && Rest() == l.rest && Messages(errors) == Messages(old(errors)) + l.problems
    {
      hide ReadWord, LexNumber, Converted, LexQuoted, LexMark, PosAfter, Advance, Messages;
      assert Messages(errors) + [] == Messages(errors);
      if classes.starts(first) {
        var text := EatWord(first, classes);
        kind := Some(Word(text));
      } else if IsDigit(first) {
        var number := ReadNumber(first, start, classes);
        kind := Some(number);
      } else if first == '"' {
        var quoted := ReadQuoted(start);
        kind := Some(quoted);
      } else {
        kind := ReadMark(first);
      }
    }

    /** The next token: whatever comes before it is passed over. */
    method NextToken(classes: Classes) returns (t: Token)
      requires Valid()
      modifies this
      ensures Valid() && Source() == old(Source())
      ensures (t, Rest()) == Next(Source(), old(Rest()), classes)
      ensures Messages(errors) == Messages(old(errors)) + NextReports(old(Rest()), classes)
    {
      hide PosAfter, Advance, SkipComment, SkipLine, AtToken, Next, LexemeAt, LexOne, LexHere, Messages, Suffix;
      hide Valid, Rest, Source, Passed, NextReports;
      Standing();
      ghost var source, text := Source(), Rest();
      while true
        invariant Valid() && Source() == source
        invariant AtToken(Rest(), classes) == AtToken(text, classes)
        invariant Messages(errors) + Passed(Rest(), classes) == Messages(old(errors)) + Passed(text, classes)
        decreases |Rest()|
      {
        ghost var before, sofar := Rest(), errors;
        var start := pos;
        Standing();
        AtTokenStep(before, classes);
        SameNext(source, before, text, classes);
        var c := Bump();
        if c.None? {
          EndReached(source, classes);
          assert source[..|source|] == source;
          ReportsAtEnd(text, classes);
          assert Messages(errors) + [] == Messages(errors);
          return Eof(start, start);
        }
        if classes.space(c.value) { continue; }
        var next := Peek();
        if c.value == '/' && next == Some('/') {
          var _ := Bump();
          EatLineComment();
        } else if c.value == '/' && next == Some('*') {
          var _ := Bump();
          EatBlockComment(start);
          Reported(sofar, SourceError(start, PosAfter(source), UnterminatedComment));
          NothingPassed(classes);
          assert Messages(sofar) + [UnterminatedComment] + [] == Messages(sofar) + [UnterminatedComment];
        } else {
          HereIs(before, classes);
          var kind := ReadToken(c.value, start, classes);
          if kind.Some? {
            ReportsAtToken(before, text, classes);
            assert Messages(sofar) + [] == Messages(sofar);
            Regrouped(Messages(old(errors)), Passed(text, classes));
            Standing();
            TokenReached(source, before, classes);
            LexemeIs(source, kind.value, |source| - |before|, |source| - |Rest()|);
            return Lexeme(kind.value, start, pos);
          }
          Error(start, pos, UnexpectedCharacter);
          Reported(sofar, SourceError(start, pos, UnexpectedCharacter));
          Regrouped(Messages(sofar), [UnexpectedCharacter]);
        }
      }
    }

    /** All tokens of the source. */
    method Tokenize(classes: Classes) returns (tokens: seq<Token>)
      requires Valid() && consumed == []
      modifies this
      ensures Valid() && Rest() == [] && Source() == old(Source())
      ensures tokens == Tokens(Source(), Source(), classes)
      ensures Messages(errors) == Messages(old(errors)) + Reports(Source(), Source(), classes)
    {
      hide PosAfter, AtToken, Next, NextReports, Messages;
      tokens := [];
      ghost var all := Tokens(Source(), Source(), classes);
      assert Rest() == Source();
      while true
        invariant Valid() && Source() == old(Source())
        invariant tokens + Tokens(Source(), Rest(), classes) == all
        invariant Messages(errors) + Reports(Source(), Rest(), classes) ==
                    Messages(old(errors)) + Reports(Source(), Source(), classes)
        decreases |Rest()|
      {
        ghost var before, done := Rest(), tokens;
        var t := NextToken(classes);
        tokens := tokens + [t];
        if t.Eof? { break; }
        assert Tokens(Source(), before, classes) == [t] + Tokens(Source(), Rest(), classes);
        assert done + ([t] + Tokens(Source(), Rest(), classes)) == (done + [t]) + Tokens(Source(), Rest(), classes);
      }
    }

    lemma Standing()
      requires Valid()
      ensures |Rest()| <= |Source()| && Source()[|Source()| - |Rest()|..] == Rest()
      ensures pos == PosAfter(Source()[..|Source()| - |Rest()|])
    {
      assert consumed == Source()[..|Source()| - |Rest()|];
    }

    lemma AllConsumed()
      requires Valid() && Rest() == []
      ensures pos == PosAfter(Source())
    {
      assert consumed == Source();
    }
  }
}

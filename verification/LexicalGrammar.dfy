/**
 A text and its tokens: blanks, comments and spelled tokens, each up to where
 the next may begin. The lexer reads a text without a report exactly when it is
 laid out so, and its tokens are those spelled in it.
 */
module LexicalGrammar {
  import opened Values
  import opened Delimiters
  import opened Literals
  import opened Lexer
  import opened Spellings

  // ----- punctuation -----

  const SIGNS: set<seq<char>> :=
    {"::", "..", "->", "-=", "=>", "==", "!=", "<=", ">=", "+=", "*=", "/=", "%=", "&&", "||", "|>", "#{",
     "(", ")", "{", "}", "[", "]", ",", ";", ":", ".", "-", "=", "!", "?", "<", ">", "+", "*", "/", "%", "|"}

  /** No longer sign begins the text. */
  predicate Longest(sign: seq<char>, rest: seq<char>) {
    forall longer <- SIGNS :: |longer| > |sign| ==> !(longer <= sign + rest)
  }

  lemma PairsAreSigns(c: char, d: char)
    ensures Pair(c, d) <==> [c, d] in SIGNS
  {
    SignsInTwo([c, d]);
  }

  lemma SignsInTwo(s: seq<char>)
    requires |s| == 2
    ensures s in SIGNS <==> Pair(s[0], s[1])
  {
    if Pair(s[0], s[1]) {
      assert s == [s[0], s[1]];
    }
  }

  lemma SinglesAreSigns(c: char)
    ensures Single(c) <==> [c] in SIGNS
  {
    SignsOfOne([c]);
  }

  lemma SignsOfOne(s: seq<char>)
    requires |s| == 1
    ensures s in SIGNS <==> Single(s[0])
  {
    if Single(s[0]) {
      assert s == [s[0]];
    }
  }

  lemma SignsAreShort(sign: seq<char>)
    requires sign in SIGNS
    ensures sign != [] && |sign| <= 2
  {
  }

  lemma LongestMeans(sign: seq<char>, rest: seq<char>)
    requires sign in SIGNS
    ensures |sign| == 2 ==> Longest(sign, rest)
    ensures |sign| == 1 ==> (Longest(sign, rest) <==> rest == [] || !Pair(sign[0], rest[0]))
  {
    hide SIGNS, Pair;
    var s := sign + rest;
    if |sign| == 1 && rest != [] {
      PairsAreSigns(sign[0], rest[0]);
      assert [sign[0], rest[0]] <= s;
    }
    forall longer <- SIGNS | |longer| > |sign| && longer <= s
      ensures |sign| == 1 && rest != [] && Pair(sign[0], rest[0])
    {
      SignsAreShort(longer);
      SignsAreShort(sign);
      assert longer == [sign[0], rest[0]];
      PairsAreSigns(sign[0], rest[0]);
    }
  }

  /** The longest sign that begins the text is read. */
  lemma SignReads(sign: seq<char>, rest: seq<char>)
    requires sign in SIGNS && Longest(sign, rest)
    ensures sign != []
    ensures LexMark(sign[0], (sign + rest)[1..]) == Some(Lexed(Mark(sign), rest, []))
  {
    hide *;
    SignsAreShort(sign);
    LongestMeans(sign, rest);
    var s := sign + rest;
    MarkIs(s);
    if |sign| == 2 {
      assert sign == [s[0], s[1]] && s[2..] == rest;
      PairsAreSigns(s[0], s[1]);
    } else {
      assert sign == [s[0]] && s[1..] == rest;
      SinglesAreSigns(s[0]);
    }
  }

  lemma MarkIs(s: seq<char>)
    requires s != []
    ensures LexMark(s[0], s[1..]) ==
              if |s| >= 2 && Pair(s[0], s[1]) then Some(Lexed(Mark([s[0], s[1]]), s[2..], []))
              else if Single(s[0]) then Some(Lexed(Mark([s[0]]), s[1..], []))
              else None
  {
    hide Pair, Single;
  }

  lemma SignWas(s: seq<char>) returns (sign: seq<char>)
    requires s != [] && LexMark(s[0], s[1..]).Some?
    ensures sign in SIGNS
    ensures var rest := LexMark(s[0], s[1..]).value.rest;
            && s == sign + rest && Longest(sign, rest)
            && LexMark(s[0], s[1..]) == Some(Lexed(Mark(sign), rest, []))
  {
    hide *;
    MarkIs(s);
    if |s| >= 2 && Pair(s[0], s[1]) {
      sign := [s[0], s[1]];
      PairsAreSigns(s[0], s[1]);
      LongestMeans(sign, s[2..]);
      assert s == sign + s[2..];
    } else {
      sign := [s[0]];
      SinglesAreSigns(s[0]);
      LongestMeans(sign, s[1..]);
      assert s == sign + s[1..];
    }
  }

  // ----- tokens -----

  /** A long string drops one newline after its quotes, and ends at the next three or at a last backslash. */
  datatype Spelling =
    | Name(text: seq<char>)
    | Numbered(figures: Figures)
    | Short(pieces: seq<StrPiece>)
    | Long(newline: seq<char>, pieces: seq<StrPiece>, closing: seq<char>)
    | Sign(sign: seq<char>)

  function Written(sp: Spelling): seq<char>
  {
    match sp
    case Name(text) => text
    case Numbered(figures) => FiguresWritten(figures)
    case Short(pieces) => ['"'] + (Spelled(pieces) + ['"'])
    case Long(newline, pieces, closing) => QUOTES + (newline + (Spelled(pieces) + closing))
    case Sign(sign) => sign
  }

  predicate BeginsLine(s: seq<char>) {
    ['\n'] <= s || ['\r', '\n'] <= s
  }

  predicate Sound(sp: Spelling, classes: Classes) {
    match sp
    case Name(text) => NameSpelled(text, classes)
    case Numbered(figures) =>
      FiguresSpelled(figures) && !(IsDecimal(figures) && classes.refuses(FiguresMean(figures)))
    case Short(pieces) => AllLegal(pieces)
    case Long(newline, pieces, closing) =>
      && LongClean(pieces, closing)
      && (newline in {['\n'], ['\r', '\n']} || (newline == [] && !BeginsLine(Spelled(pieces) + closing)))
    case Sign(sign) => sign in SIGNS
  }

  /** `rest` does not go on with the token. */
  predicate Stops(sp: Spelling, rest: seq<char>, classes: Classes) {
    match sp
    case Name(_) => rest != [] ==> !classes.continues(rest[0])
    case Numbered(figures) => FiguresStop(figures, rest)
    case Short(pieces) => pieces == [] ==> !(['"'] <= rest)
    case Long(_, _, closing) => Closing(closing, rest)
    case Sign(sign) => Longest(sign, rest)
  }

  function KindOf(sp: Spelling): Kind
    requires sp.Short? ==> AllMeaningful(sp.pieces)
    requires sp.Long? ==> AllMeaningful(sp.pieces)
  {
    match sp
    case Name(text) => Word(text)
    case Numbered(figures) => Numeral(IsDecimal(figures), FiguresMean(figures))
    case Short(pieces) => Chars(Denoted(pieces, [], []))
    case Long(_, pieces, _) => Chars(Denoted(pieces, [], []))
    case Sign(sign) => Mark(sign)
  }

  /** No character is of two classes, as in the Unicode tables. */
  predicate Ordinary(classes: Classes) {
    && (forall c :: classes.space(c) ==> !classes.starts(c) && !IsDigit(c) && c != '"' && !BeginsSign(c))
    && (forall c :: classes.starts(c) ==> !IsDigit(c) && c != '"' && !BeginsSign(c))
  }

  predicate BeginsSign(c: char) {
    exists sign <- SIGNS :: [c] <= sign
  }

  lemma SignsBegin(sign: seq<char>)
    requires sign in SIGNS
    ensures sign != [] && BeginsSign(sign[0]) && sign[0] != '"' && !IsDigit(sign[0])
  {
    assert [sign[0]] <= sign;
  }

  /** Which of the readers is asked. */
  lemma HereAsks(s: seq<char>, classes: Classes)
    requires s != []
    ensures LexHere(s, classes) ==
              if classes.starts(s[0]) then
                var w := ReadWord(s[1..], [s[0]], classes);
                Some(Lexed(Word(w.0), w.1, []))
              else if IsDigit(s[0]) then Some(Converted(LexNumber(s[0], s[1..]), classes))
              else if s[0] == '"' then
                var q := LexQuoted(s[1..]);
                Some(Lexed(Chars(q.parts), q.rest, q.problems))
              else LexMark(s[0], s[1..])
  {
    HereIs(s, classes);
    hide ReadWord, LexNumber, Converted, LexQuoted, LexMark, LexHere, IsDigit;
  }

  lemma OrdinaryMeans(c: char, classes: Classes)
    requires Ordinary(classes)
    ensures IsDigit(c) || c == '"' || BeginsSign(c) ==> !classes.starts(c) && !classes.space(c)
    ensures classes.starts(c) ==> !classes.space(c) && !IsDigit(c)
  {
    hide BeginsSign, IsDigit;
  }

  /** A token is read as it is spelled, if what follows does not go on with it. */
  lemma LexemeReads(sp: Spelling, rest: seq<char>, classes: Classes)
    requires Ordinary(classes) && Sound(sp, classes) && Stops(sp, rest, classes)
    ensures Written(sp) != [] && !classes.space(Written(sp)[0])
    ensures LexHere(Written(sp) + rest, classes) == Some(Lexed(KindOf(sp), rest, []))
  {
    hide *;
    WrittenIs(sp, classes);
    match sp
    case Name(text) => NameReads(text, rest, classes);
    case Numbered(figures) => FiguresLexed(figures, rest, classes);
    case Short(pieces) => ShortReads(pieces, rest, classes);
    case Long(newline, pieces, closing) => LongLexed(newline, pieces, closing, rest, classes);
    case Sign(sign) => SignLexed(sign, rest, classes);
  }

  lemma WrittenIs(sp: Spelling, classes: Classes)
    ensures Sound(sp, classes) ==> (sp.Short? || sp.Long? ==> AllMeaningful(sp.pieces))
  {
    hide LongClean, AllLegal, AllMeaningful;
  }

  lemma NameReads(text: seq<char>, rest: seq<char>, classes: Classes)
    requires Ordinary(classes) && Sound(Name(text), classes) && Stops(Name(text), rest, classes)
    ensures Written(Name(text)) == text && text != [] && !classes.space(text[0])
    ensures LexHere(text + rest, classes) == Some(Lexed(Word(text), rest, []))
    ensures KindOf(Name(text)) == Word(text)
  {
    hide AllContinue, LexHere, ReadWord, BeginsSign, IsDigit;
    var s := text + rest;
    HereAsks(s, classes);
    assert s[1..] == text[1..] + rest && [text[0]] + text[1..] == text;
    WordReads(text[1..], rest, [text[0]], classes);
    OrdinaryMeans(text[0], classes);
  }

  lemma FiguresLexed(n: Figures, rest: seq<char>, classes: Classes)
    requires Ordinary(classes) && Sound(Numbered(n), classes) && Stops(Numbered(n), rest, classes)
    ensures Written(Numbered(n)) == FiguresWritten(n) != [] && !classes.space(FiguresWritten(n)[0])
    ensures LexHere(FiguresWritten(n) + rest, classes) == Some(Lexed(KindOf(Numbered(n)), rest, []))
  {
    hide LexHere, LexNumber, FiguresSpelled, FiguresStop, FiguresWritten, FiguresMean, IsDecimal, IsDigit, BeginsSign;
    hide Ordinary;
    FiguresRead(n, rest);
    var s := FiguresWritten(n) + rest;
    OrdinaryMeans(s[0], classes);
    HereAsks(s, classes);
  }

  lemma ShortReads(pieces: seq<StrPiece>, rest: seq<char>, classes: Classes)
    requires Ordinary(classes) && AllMeaningful(pieces)
    requires Sound(Short(pieces), classes) && Stops(Short(pieces), rest, classes)
    ensures var text := Written(Short(pieces)); text != [] && !classes.space(text[0])
    ensures LexHere(Written(Short(pieces)) + rest, classes) == Some(Lexed(KindOf(Short(pieces)), rest, []))
  {
    hide LexHere, LexString, LexTriple, Spelled, Denoted, AllLegal, AllMeaningful, Ordinary, BeginsSign, WithoutNewline;
    var body := Spelled(pieces) + (['"'] + rest);
    var s := Written(Short(pieces)) + rest;
    OrdinaryMeans('"', classes);
    HereAsks(s, classes);
    Regroup(['"'], Spelled(pieces) + ['"'], rest);
    Regroup(Spelled(pieces), ['"'], rest);
    assert s == ['"'] + body && s[1..] == body;
    OneQuote(pieces, rest);
    StringReads(pieces, rest, [], [], []);
  }

  lemma OneQuote(pieces: seq<StrPiece>, rest: seq<char>)
    requires AllLegal(pieces) && (pieces == [] ==> !(['"'] <= rest))
    ensures var body := Spelled(pieces) + (['"'] + rest); !(|body| >= 2 && body[0] == '"' && body[1] == '"')
  {
    var body := Spelled(pieces) + (['"'] + rest);
    if pieces == [] {
      assert body == ['"'] + rest;
    } else {
      assert Legal(pieces[0]);
      var text := PieceText(pieces[0]);
      assert body[0] == text[0];
      hide Spelled, ChunksText, SimpleEscape, FromHex, Meant, AllHex;
    }
  }

  lemma LongLexed(newline: seq<char>, pieces: seq<StrPiece>, closing: seq<char>, rest: seq<char>, classes: Classes)
    requires Ordinary(classes) && AllMeaningful(pieces)
    requires var sp := Long(newline, pieces, closing); Sound(sp, classes) && Stops(sp, rest, classes)
    ensures var text := Written(Long(newline, pieces, closing)); text != [] && !classes.space(text[0])
    ensures var sp := Long(newline, pieces, closing);
            LexHere(Written(sp) + rest, classes) == Some(Lexed(KindOf(sp), rest, []))
  {
    hide LexHere, LexString, LexTriple, Spelled, Denoted, LongClean, AllMeaningful, Ordinary, BeginsSign, BeginsLine;
    hide WithoutNewline, Closing;
    var body := Spelled(pieces) + (closing + rest);
    var s := Written(Long(newline, pieces, closing)) + rest;
    OrdinaryMeans('"', classes);
    HereAsks(s, classes);
    Regroup(Spelled(pieces), closing, rest);
    Regroup(newline, Spelled(pieces) + closing, rest);
    Regroup(QUOTES, newline + (Spelled(pieces) + closing), rest);
    assert s == QUOTES + (newline + body) && s[1..][2..] == newline + body;
    NewlineDropped(newline, pieces, closing, rest);
    LongReads(pieces, closing, rest, [], [], []);
  }

  lemma NewlineDropped(newline: seq<char>, pieces: seq<StrPiece>, closing: seq<char>, rest: seq<char>)
    requires Closing(closing, rest)
    requires newline in {['\n'], ['\r', '\n']} || (newline == [] && !BeginsLine(Spelled(pieces) + closing))
    ensures var body := Spelled(pieces) + (closing + rest); WithoutNewline(newline + body) == body
  {
    hide *;
    var body := Spelled(pieces) + (closing + rest);
    NewlineIs(newline + body);
    if newline == [] {
      LineStays(Spelled(pieces), closing, rest);
      assert newline + body == body;
    } else {
      LineBegun(newline, body);
      assert (newline + body)[|newline|..] == body && (newline + body)[0] == newline[0];
    }
  }

  lemma LineBegun(newline: seq<char>, body: seq<char>)
    requires newline in {['\n'], ['\r', '\n']}
    ensures BeginsLine(newline + body) && (newline[0] == '\n' <==> |newline| == 1) && 1 <= |newline| <= 2
  {
  }

  lemma NewlineIs(s: seq<char>)
    ensures WithoutNewline(s) == if !BeginsLine(s) then s else if s[0] == '\n' then s[1..] else s[2..]
    ensures BeginsLine(s) && s[0] != '\n' ==> s[..2] == ['\r', '\n']
  {
  }

  /** What follows the closing does not change how the string begins. */
  lemma LineStays(text: seq<char>, closing: seq<char>, rest: seq<char>)
    requires Closing(closing, rest)
    ensures BeginsLine(text + (closing + rest)) == BeginsLine(text + closing)
  {
    var t := text + closing;
    Regroup(text, closing, rest);
    if closing == QUOTES {
      assert (t + rest)[0] == t[0] && (t + rest)[1] == t[1];
    } else {
      assert t + rest == t;
    }
  }

  lemma SignLexed(sign: seq<char>, rest: seq<char>, classes: Classes)
    requires Ordinary(classes) && Sound(Sign(sign), classes) && Stops(Sign(sign), rest, classes)
    ensures sign != [] && !classes.space(sign[0]) && Written(Sign(sign)) == sign
    ensures LexHere(sign + rest, classes) == Some(Lexed(KindOf(Sign(sign)), rest, []))
  {
    hide LexHere, LexMark, SIGNS, Longest, Ordinary, BeginsSign, IsDigit;
    SignsBegin(sign);
    OrdinaryMeans(sign[0], classes);
    HereAsks(sign + rest, classes);
    SignReads(sign, rest);
  }

  // ----- a token was spelled -----

  /** Whatever is read as a token without a report was spelled so. */
  lemma LexemeWas(s: seq<char>, classes: Classes) returns (sp: Spelling)
    requires s != [] && LexHere(s, classes).Some? && LexHere(s, classes).value.problems == []
    ensures Sound(sp, classes) && Stops(sp, LexHere(s, classes).value.rest, classes)
    ensures s == Written(sp) + LexHere(s, classes).value.rest && LexHere(s, classes).value.kind == KindOf(sp)
  {
    hide *;
    HereAsks(s, classes);
    if classes.starts(s[0]) {
      sp := NameWas(s, classes);
    } else if IsDigit(s[0]) {
      sp := FiguresWere(s, classes);
    } else if s[0] == '"' {
      sp := QuotedWas(s, classes);
    } else {
      var sign := SignWas(s);
      sp := Sign(sign);
      SignIs(sign, LexMark(s[0], s[1..]).value.rest, classes);
    }
  }

  lemma SignIs(sign: seq<char>, rest: seq<char>, classes: Classes)
    requires sign in SIGNS && Longest(sign, rest)
    ensures Sound(Sign(sign), classes) && Stops(Sign(sign), rest, classes)
    ensures Written(Sign(sign)) == sign && KindOf(Sign(sign)) == Mark(sign)
  {
    hide SIGNS, Longest;
  }

  lemma NameWas(s: seq<char>, classes: Classes) returns (sp: Spelling)
    requires s != [] && classes.starts(s[0])
    ensures var w := ReadWord(s[1..], [s[0]], classes);
            && Sound(sp, classes) && Stops(sp, w.1, classes) && s == Written(sp) + w.1
            && (sp.Name? && KindOf(sp) == Word(w.0))
  {
    hide ReadWord, AllContinue;
    var w := WordWasSpelled(s[1..], [s[0]], classes);
    var text := [s[0]] + w;
    sp := Name(text);
    assert text[1..] == w;
    Regroup([s[0]], w, ReadWord(s[1..], [s[0]], classes).1);
    assert s == [s[0]] + s[1..];
  }

  lemma FiguresWere(s: seq<char>, classes: Classes) returns (sp: Spelling)
    requires s != [] && IsDigit(s[0]) && Converted(LexNumber(s[0], s[1..]), classes).problems == []
    ensures var l := Converted(LexNumber(s[0], s[1..]), classes);
            && Sound(sp, classes) && Stops(sp, l.rest, classes) && s == Written(sp) + l.rest
            && (sp.Numbered? && KindOf(sp) == l.kind)
  {
    hide LexNumber, FiguresSpelled, FiguresStop, FiguresWritten, FiguresMean, IsDecimal, IsDigit;
    var n := LexNumber(s[0], s[1..]);
    assert |n.problems + [InvalidDecimal]| > 0;
    var f := FiguresWereSpelled(s);
    sp := Numbered(f);
  }

  lemma QuotedWas(s: seq<char>, classes: Classes) returns (sp: Spelling)
    requires s != [] && s[0] == '"' && LexQuoted(s[1..]).problems == []
    ensures var q := LexQuoted(s[1..]);
            && Sound(sp, classes) && Stops(sp, q.rest, classes) && s == Written(sp) + q.rest
            && ((sp.Short? || sp.Long?) && AllMeaningful(sp.pieces) && KindOf(sp) == Chars(q.parts))
  {
    hide *;
    QuotedIs(s[1..]);
    assert s == ['"'] + s[1..];
    if |s| >= 3 && s[1] == '"' && s[2] == '"' {
      ThreeAre(s);
      var t := s[3..];
      assert s[1..][2..] == t;
      ThreeBegin(s);
      sp := LongWas(t, classes);
      LongSplit(sp, t, LexQuoted(s[1..]).rest);
    } else {
      sp := ShortWas(s[1..], classes);
      ShortSplit(sp, s[1..], LexQuoted(s[1..]).rest);
    }
  }

  lemma ThreeAre(s: seq<char>)
    requires |s| >= 3 && s[0] == '"' && s[1] == '"' && s[2] == '"'
    ensures ThreeQuotes(s)
  {
  }

  lemma ThreeBegin(s: seq<char>)
    requires ThreeQuotes(s)
    ensures s == QUOTES + s[3..]
  {
  }

  lemma QuotedIs(t: seq<char>)
    ensures LexQuoted(t) ==
              if |t| >= 2 && t[0] == '"' && t[1] == '"' then LexTriple(WithoutNewline(t[2..]), [], [], [])
              else LexString(t, [], [], [])
  {
    hide LexTriple, LexString, WithoutNewline;
  }

  lemma ShortSplit(sp: Spelling, t: seq<char>, rest: seq<char>)
    requires sp.Short? && t == Spelled(sp.pieces) + (['"'] + rest)
    ensures ['"'] + t == Written(sp) + rest
  {
    hide Spelled;
    Regroup(Spelled(sp.pieces), ['"'], rest);
    Regroup(['"'], Spelled(sp.pieces) + ['"'], rest);
  }

  lemma LongSplit(sp: Spelling, t: seq<char>, rest: seq<char>)
    requires sp.Long? && t == sp.newline + (Spelled(sp.pieces) + (sp.closing + rest))
    ensures QUOTES + t == Written(sp) + rest
  {
    hide Spelled, QUOTES;
    Regroup(Spelled(sp.pieces), sp.closing, rest);
    Regroup(sp.newline, Spelled(sp.pieces) + sp.closing, rest);
    Regroup(QUOTES, sp.newline + (Spelled(sp.pieces) + sp.closing), rest);
  }

  lemma ShortWas(t: seq<char>, classes: Classes) returns (sp: Spelling)
    requires !(|t| >= 2 && t[0] == '"' && t[1] == '"') && LexString(t, [], [], []).problems == []
    ensures sp.Short? && AllMeaningful(sp.pieces) && Sound(sp, classes)
    ensures var q := LexString(t, [], [], []);
            && t == Spelled(sp.pieces) + (['"'] + q.rest) && Stops(sp, q.rest, classes)
            && KindOf(sp) == Chars(q.parts)
  {
    hide LexString, Denoted, AllLegal, AllMeaningful;
    var q := LexString(t, [], [], []);
    var ps := StringWasSpelled(t, [], [], []);
    StringReads(ps, q.rest, [], [], []);
    sp := Short(ps);
    if ps == [] {
      assert t == ['"'] + q.rest;
    }
  }

  lemma LongWas(t: seq<char>, classes: Classes) returns (sp: Spelling)
    requires LexTriple(WithoutNewline(t), [], [], []).problems == []
    ensures sp.Long? && AllMeaningful(sp.pieces) && Sound(sp, classes)
    ensures var q := LexTriple(WithoutNewline(t), [], [], []);
            && t == sp.newline + (Spelled(sp.pieces) + (sp.closing + q.rest)) && Stops(sp, q.rest, classes)
            && KindOf(sp) == Chars(q.parts)
  {
    hide *;
    var body := WithoutNewline(t);
    var q := LexTriple(body, [], [], []);
    var ps, closing := LongWasSpelled(body, [], [], []);
    LongReads(ps, closing, q.rest, [], [], []);
    LineStays(Spelled(ps), closing, q.rest);
    var newline := NewlineWas(t);
    sp := Long(newline, ps, closing);
    LongSound(sp, q.rest, classes);
  }

  lemma NewlineWas(t: seq<char>) returns (newline: seq<char>)
    ensures t == newline + WithoutNewline(t)
    ensures newline in {['\n'], ['\r', '\n']} || (newline == [] && WithoutNewline(t) == t && !BeginsLine(t))
  {
    newline := t[..|t| - |WithoutNewline(t)|];
    assert |newline| == 1 ==> newline == ['\n'];
    assert |newline| == 2 ==> newline == ['\r', '\n'];
    assert newline == [] ==> WithoutNewline(t) == t;
  }

  lemma LongSound(sp: Spelling, rest: seq<char>, classes: Classes)
    requires sp.Long? && LongClean(sp.pieces, sp.closing) && Closing(sp.closing, rest)
    requires sp.newline in {['\n'], ['\r', '\n']} || (sp.newline == [] && !BeginsLine(Spelled(sp.pieces) + sp.closing))
    ensures AllMeaningful(sp.pieces) && Sound(sp, classes) && Stops(sp, rest, classes)
    ensures KindOf(sp) == Chars(Denoted(sp.pieces, [], []))
  {
    hide LongClean, Closing, AllMeaningful, BeginsLine, Denoted, Spelled;
  }

  // ----- texts -----

  datatype Item =
    | Blank(c: char)
    | LineComment(text: seq<char>)
    | BlockComment(pieces: seq<Piece>)
    | Spelt(sp: Spelling)

  function ItemText(i: Item): seq<char> {
    match i
    case Blank(c) => [c]
    case LineComment(text) => ['/', '/'] + text
    case BlockComment(pieces) => ['/', '*'] + (Text(pieces) + CLOSE)
    case Spelt(sp) => Written(sp)
  }

  function SourceOf(items: seq<Item>): seq<char> {
    if items == [] then [] else ItemText(items[0]) + SourceOf(items[1..])
  }

  /** The item may stand in front of `rest`: a line comment takes its whole line, and no token opens a comment. */
  predicate Fits(i: Item, rest: seq<char>, classes: Classes) {
    match i
    case Blank(c) => classes.space(c)
    case LineComment(text) => '\n' !in text && (rest == [] || rest[0] == '\n')
    case BlockComment(pieces) => Clean(pieces)
    case Spelt(sp) =>
      && Sound(sp, classes) && Stops(sp, rest, classes)
      && !Begins(Written(sp) + rest, '/', '/') && !Begins(Written(sp) + rest, '/', '*')
  }

  predicate Laid(items: seq<Item>, classes: Classes) {
    items != [] ==> Fits(items[0], SourceOf(items[1..]), classes) && Laid(items[1..], classes)
  }

  function KindsOf(items: seq<Item>, classes: Classes): seq<Kind>
    requires Laid(items, classes)
  {
    if items == [] then []
    else if items[0].Spelt? then [KindOf(items[0].sp)] + KindsOf(items[1..], classes)
    else KindsOf(items[1..], classes)
  }

  /** The kinds of the tokens before the end of the file. */
  function TokenKinds(ts: seq<Token>): seq<Kind> {
    if ts == [] then []
    else if ts[0].Lexeme? then [ts[0].kind] + TokenKinds(ts[1..])
    else TokenKinds(ts[1..])
  }

  /** Whatever is passed over without a report makes no difference. */
  lemma PassedOver(source: seq<char>, a: seq<char>, b: seq<char>, classes: Classes)
    requires |a| <= |source| && |b| <= |source|
    requires AtToken(a, classes) == AtToken(b, classes) && Passed(a, classes) == Passed(b, classes)
    ensures Tokens(source, a, classes) == Tokens(source, b, classes)
    ensures Reports(source, a, classes) == Reports(source, b, classes)
  {
    SameNext(source, a, b, classes);
    hide AtToken, Passed, Next, LexHere;
  }

  /** Neither tokens nor reports at the end. */
  lemma AtTheEnd(source: seq<char>, classes: Classes)
    ensures TokenKinds(Tokens(source, [], classes)) == [] && Reports(source, [], classes) == []
  {
    hide PosAfter;
    EndReached(source, classes);
    assert Tokens(source, [], classes) == [Eof(PosAfter(source), PosAfter(source))];
  }

  /** A token here, and then the others. */
  lemma TokenHere(source: seq<char>, s: seq<char>, classes: Classes)
    requires s != [] && |s| <= |source| && AtToken(s, classes) == s && Passed(s, classes) == []
    ensures LexHere(s, classes).Some?
    ensures var l := LexHere(s, classes).value;
            && |l.rest| < |s|
            && TokenKinds(Tokens(source, s, classes)) == [l.kind] + TokenKinds(Tokens(source, l.rest, classes))
            && Reports(source, s, classes) == l.problems + Reports(source, l.rest, classes)
  {
    TokenReached(source, s, classes);
    ReportsAtToken(s, s, classes);
    hide AtToken, Passed, LexHere, Next, PosAfter, NextReports;
    var l := LexHere(s, classes).value;
    var t := Next(source, s, classes).0;
    var more := Tokens(source, l.rest, classes);
    assert ([t] + more)[1..] == more;
    assert [] + l.problems == l.problems;
  }

  lemma {:induction false} LineSkipped(text: seq<char>, rest: seq<char>)
    requires '\n' !in text && (rest == [] || rest[0] == '\n')
    ensures SkipLine(text + rest) == rest
    decreases |text|
  {
    hide *;
    SkipLineIs(text + rest);
    if text == [] {
      assert text + rest == rest;
    } else {
      assert text[0] in text && (text + rest)[1..] == text[1..] + rest;
      LineSkipped(text[1..], rest);
    }
  }

  lemma SlashIsNoSpace(classes: Classes)
    requires Ordinary(classes)
    ensures !classes.space('/')
  {
    assert "/" in SIGNS && ['/'] <= "/";
    assert BeginsSign('/');
  }

  /** Blanks and comments are passed over. */
  lemma GapPassed(i: Item, rest: seq<char>, classes: Classes)
    requires Ordinary(classes) && !i.Spelt? && Fits(i, rest, classes)
    ensures AtToken(ItemText(i) + rest, classes) == AtToken(rest, classes)
    ensures Passed(ItemText(i) + rest, classes) == Passed(rest, classes)
  {
    SlashIsNoSpace(classes);
    match i
    case Blank(c) => BlankPassed(c, rest, classes);
    case LineComment(text) => LinePassed(text, rest, classes);
    case BlockComment(pieces) =>
      hide AtToken, Passed, Text, Clean;
      CommentIsSpace(pieces, rest, classes);
      Regroup(['/', '*'], Text(pieces) + CLOSE, rest);
      Regroup(Text(pieces), CLOSE, rest);
  }

  lemma BlankPassed(c: char, rest: seq<char>, classes: Classes)
    requires classes.space(c)
    ensures AtToken([c] + rest, classes) == AtToken(rest, classes)
    ensures Passed([c] + rest, classes) == Passed(rest, classes)
  {
    hide *;
    var s := [c] + rest;
    AtTokenStep(s, classes);
    assert s[1..] == rest;
  }

  lemma LinePassed(text: seq<char>, rest: seq<char>, classes: Classes)
    requires !classes.space('/') && '\n' !in text && (rest == [] || rest[0] == '\n')
    ensures AtToken(['/', '/'] + text + rest, classes) == AtToken(rest, classes)
    ensures Passed(['/', '/'] + text + rest, classes) == Passed(rest, classes)
  {
    hide *;
    var s := ['/', '/'] + text + rest;
    AtTokenStep(s, classes);
    assert s[0] == '/' && s[1] == '/' && s[2..] == text + rest;
    SlashesBegin(s);
    LineSkipped(text, rest);
  }

  lemma SlashesBegin(s: seq<char>)
    requires |s| >= 2 && s[0] == '/' && s[1] == '/'
    ensures Begins(s, '/', '/')
  {
  }

  /** A token is found where it stands. */
  lemma LexemeFound(sp: Spelling, rest: seq<char>, classes: Classes)
    requires Ordinary(classes) && Fits(Spelt(sp), rest, classes)
    ensures var s := Written(sp) + rest;
            && s != [] && AtToken(s, classes) == s && Passed(s, classes) == []
            && LexHere(s, classes) == Some(Lexed(KindOf(sp), rest, []))
  {
    hide Ordinary, Sound, Stops, AtToken, Passed, LexHere, Written, SkipComment, SkipLine;
    LexemeReads(sp, rest, classes);
    var s := Written(sp) + rest;
    AtTokenStep(s, classes);
  }

  /** A text that is laid out is read without a report, as the tokens spelled in it. */
  lemma {:induction false} TextReads(items: seq<Item>, source: seq<char>, classes: Classes)
    requires Ordinary(classes) && Laid(items, classes) && |SourceOf(items)| <= |source|
    ensures TokenKinds(Tokens(source, SourceOf(items), classes)) == KindsOf(items, classes)
    ensures Reports(source, SourceOf(items), classes) == []
    decreases |items|
  {
    hide *;
    LaidStep(items, classes);
    if items == [] {
      AtTheEnd(source, classes);
    } else {
      var rest := SourceOf(items[1..]);
      TextReads(items[1..], source, classes);
      if items[0].Spelt? {
        var sp := items[0].sp;
        LexemeFound(sp, rest, classes);
        TokenHere(source, Written(sp) + rest, classes);
        assert [] + Reports(source, rest, classes) == [];
      } else {
        GapPassed(items[0], rest, classes);
        PassedOver(source, SourceOf(items), rest, classes);
      }
    }
  }

  lemma LaidStep(items: seq<Item>, classes: Classes)
    requires Laid(items, classes)
    ensures items == [] ==> SourceOf(items) == [] && KindsOf(items, classes) == []
    ensures items != [] ==>
              var i, more := items[0], items[1..];
              && Laid(more, classes) && Fits(i, SourceOf(more), classes)
              && SourceOf(items) == ItemText(i) + SourceOf(more)
              && (i.Spelt? ==>
                    && ItemText(i) == Written(i.sp) && (i.sp.Short? || i.sp.Long? ==> AllMeaningful(i.sp.pieces))
                    && KindsOf(items, classes) == [KindOf(i.sp)] + KindsOf(more, classes))
              && (!i.Spelt? ==> KindsOf(items, classes) == KindsOf(more, classes))
  {
    hide Sound, Stops, Written, Text, KindOf, Clean;
    if items != [] && items[0].Spelt? {
      WrittenIs(items[0].sp, classes);
    }
  }

  lemma LaidInFront(i: Item, items: seq<Item>, classes: Classes)
    requires Laid(items, classes) && Fits(i, SourceOf(items), classes)
    ensures Laid([i] + items, classes) && SourceOf([i] + items) == ItemText(i) + SourceOf(items)
  {
    assert ([i] + items)[1..] == items;
    hide Fits, ItemText;
  }

  /** What is at the start of a text that is read without a report. */
  lemma FirstItem(s: seq<char>, classes: Classes) returns (i: Item, rest: seq<char>)
    requires s != [] && Passed(s, classes) == []
    requires AtToken(s, classes) == s ==> LexHere(s, classes).Some? && LexHere(s, classes).value.problems == []
    ensures Fits(i, rest, classes) && s == ItemText(i) + rest && |rest| < |s|
    ensures i.Spelt? ==> AtToken(s, classes) == s && LexHere(s, classes).value.rest == rest
  {
    hide *;
    AtTokenStep(s, classes);
    TwoBegin(s);
    if classes.space(s[0]) {
      i, rest := Blank(s[0]), s[1..];
      BlankFits(s, classes);
    } else if Begins(s, '/', '/') {
      rest := SkipLine(s[2..]);
      var text := LineWas(s[2..]);
      i := LineComment(text);
      LineFits(s, text, rest, classes);
    } else if Begins(s, '/', '*') {
      NoneOf(UnterminatedComment);
      rest := SkipComment(s[2..], 1).value;
      CommentEndsExactly(s[2..], rest);
      var ps :| Clean(ps) && s[2..] == Text(ps) + (CLOSE + rest);
      i := BlockComment(ps);
      BlockFits(s, ps, rest, classes);
    } else {
      NotFirst(UnexpectedCharacter, Passed(s[1..], classes));
      rest := LexHere(s, classes).value.rest;
      var sp := LexemeWas(s, classes);
      i := Spelt(sp);
      LexemeFits(s, sp, rest, classes);
    }
  }

  lemma TwoBegin(s: seq<char>)
    ensures Begins(s, '/', '/') || Begins(s, '/', '*') ==> |s| >= 2
  {
  }

  lemma NoneOf(m: Message)
    ensures [m] != []
  {
  }

  lemma NotFirst(m: Message, more: seq<Message>)
    ensures [m] + more != []
  {
  }

  lemma BlankFits(s: seq<char>, classes: Classes)
    requires s != [] && classes.space(s[0])
    ensures Fits(Blank(s[0]), s[1..], classes) && s == ItemText(Blank(s[0])) + s[1..]
  {
  }

  lemma {:induction false} LineWas(s: seq<char>) returns (text: seq<char>)
    ensures '\n' !in text && s == text + SkipLine(s) && (SkipLine(s) == [] || SkipLine(s)[0] == '\n')
    decreases |s|
  {
    hide *;
    SkipLineIs(s);
    if s == [] || s[0] == '\n' {
      text := [];
      assert text + s == s;
    } else {
      var more := LineWas(s[1..]);
      text := [s[0]] + more;
      assert s == [s[0]] + s[1..];
      Regroup([s[0]], more, SkipLine(s));
    }
  }

  lemma SkipLineIs(s: seq<char>)
    ensures SkipLine(s) == if s == [] || s[0] == '\n' then s else SkipLine(s[1..])
  {
  }

  lemma LineFits(s: seq<char>, text: seq<char>, rest: seq<char>, classes: Classes)
    requires Begins(s, '/', '/') && s[2..] == text + rest && '\n' !in text && (rest == [] || rest[0] == '\n')
    ensures Fits(LineComment(text), rest, classes) && s == ItemText(LineComment(text)) + rest && |rest| < |s|
  {
    assert s == ['/', '/'] + s[2..];
  }

  lemma BlockFits(s: seq<char>, ps: seq<Piece>, rest: seq<char>, classes: Classes)
    requires Begins(s, '/', '*') && s[2..] == Text(ps) + (CLOSE + rest) && Clean(ps)
    ensures Fits(BlockComment(ps), rest, classes) && s == ItemText(BlockComment(ps)) + rest && |rest| < |s|
  {
    hide Text, Clean;
    assert s == ['/', '*'] + s[2..];
    Regroup(Text(ps), CLOSE, rest);
    Regroup(['/', '*'], Text(ps) + CLOSE, rest);
  }

  lemma LexemeFits(s: seq<char>, sp: Spelling, rest: seq<char>, classes: Classes)
    requires Sound(sp, classes) && Stops(sp, rest, classes) && s == Written(sp) + rest
    requires !Begins(s, '/', '/') && !Begins(s, '/', '*')
    ensures Fits(Spelt(sp), rest, classes) && s == ItemText(Spelt(sp)) + rest
  {
    hide Sound, Stops, Written;
  }

  /** A text that is read without a report was laid out. */
  lemma {:induction false} TextWas(source: seq<char>, s: seq<char>, classes: Classes) returns (items: seq<Item>)
    requires Ordinary(classes) && |s| <= |source| && Reports(source, s, classes) == []
    ensures Laid(items, classes) && SourceOf(items) == s
    decreases |s|
  {
    hide *;
    if s == [] {
      items := [];
      NoItems(classes);
    } else {
      NothingReported(source, s, classes);
      var i, rest := FirstItem(s, classes);
      if i.Spelt? {
        TokenHere(source, s, classes);
      } else {
        GapPassed(i, rest, classes);
        PassedOver(source, s, rest, classes);
      }
      Both(LexHere(s, classes), Reports(source, rest, classes));
      var more := TextWas(source, rest, classes);
      items := [i] + more;
      LaidInFront(i, more, classes);
    }
  }

  lemma Both(l: Option<Lexed>, more: seq<Message>)
    ensures l.Some? && l.value.problems + more == [] ==> more == []
  {
  }

  lemma NoItems(classes: Classes)
    ensures Laid([], classes) && SourceOf([]) == []
  {
  }

  lemma NothingReported(source: seq<char>, s: seq<char>, classes: Classes)
    requires s != [] && |s| <= |source| && Reports(source, s, classes) == []
    ensures Passed(s, classes) == []
    ensures AtToken(s, classes) == s ==> LexHere(s, classes).Some? && LexHere(s, classes).value.problems == []
  {
    hide AtToken, Passed, LexHere, Next;
    assert NextReports(s, classes) == [];
  }

  /**
   A text is read without a report, as tokens of the kinds `ks`, exactly when it
   is laid out from blanks, comments and spelled tokens of these kinds.
   */
  lemma ReadsExactly(source: seq<char>, ks: seq<Kind>, classes: Classes)
    requires Ordinary(classes)
    ensures Reports(source, source, classes) == [] && TokenKinds(Tokens(source, source, classes)) == ks <==>
              exists items: seq<Item> ::
                Laid(items, classes) && source == SourceOf(items) && ks == KindsOf(items, classes)
  {
    hide *;
    if Reports(source, source, classes) == [] && TokenKinds(Tokens(source, source, classes)) == ks {
      var items := TextWas(source, source, classes);
      TextReads(items, source, classes);
    }
    forall items: seq<Item> | Laid(items, classes) && source == SourceOf(items) && ks == KindsOf(items, classes)
      ensures Reports(source, source, classes) == [] && TokenKinds(Tokens(source, source, classes)) == ks
    {
      TextReads(items, source, classes);
    }
  }
}

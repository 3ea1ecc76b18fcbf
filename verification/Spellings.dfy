/**
 How the tokens of the language are spelled, and what may follow each of them:
 a grammar of names, numbers, strings and punctuation that says nothing of the
 loops of `src/lexer/mod.rs`. The lexer reads a token at the start of a text
 exactly when the text begins with a spelling of it.
 */
module Spellings {
  import opened Values
  import opened Delimiters
  import opened Literals
  import opened Lexer

  // ----- escapes -----

  /** What may follow a backslash, and the code point it stands for. */
  const ESCAPES: seq<(char, nat)> :=
    [('n', 10), ('t', 9), ('r', 13), ('0', 0), ('\\', 92), ('"', 34), ('\'', 39), ('{', 123), ('}', 125)]

  lemma EscapesExactly(c: char, d: char)
    ensures SimpleEscape(c) == Some(d) <==> (c, d as nat) in ESCAPES
    ensures TripleEscape(c) == Some(d) <==> (c, d as nat) in ESCAPES && d != '\0' && d != '\''
  {
    assert ESCAPES[0] == ('n', 10) && ESCAPES[1] == ('t', 9) && ESCAPES[2] == ('r', 13) && ESCAPES[3] == ('0', 0);
    assert ESCAPES[4] == ('\\', 92) && ESCAPES[5] == ('"', 34) && ESCAPES[6] == ('\'', 39);
    assert ESCAPES[7] == ('{', 123) && ESCAPES[8] == ('}', 125);
  }

  const HEX_DIGITS := "0123456789abcdef"

  /** The number in hexadecimal. */
  function Hex(n: nat): (h: seq<char>)
    ensures h != []
  {
    if n < 16 then [HexDigit(n)] else Hex(n / 16) + [HexDigit(n % 16)]
  }

  function HexDigit(n: nat): char
    requires n < 16
  {
    HEX_DIGITS[n]
  }

  lemma {:induction false} HexIsRead(n: nat)
    ensures AllHex(Hex(n)) && HexValue(Hex(n)) == n
  {
    hide *;
    HexDigitIs(n % 16);
    HexSteps(n);
    var last := HexDigit(n % 16);
    if n < 16 {
      NoHex();
      HexOn([], last);
    } else {
      HexIsRead(n / 16);
      HexOn(Hex(n / 16), last);
    }
  }

  lemma HexSteps(n: nat)
    ensures Hex(n) == if n < 16 then [] + [HexDigit(n % 16)] else Hex(n / 16) + [HexDigit(n % 16)]
  {
    hide HexDigit;
  }

  lemma NoHex()
    ensures AllHex([]) && HexValue([]) == 0
  {
  }

  lemma HexOn(front: seq<char>, c: char)
    requires AllHex(front) && IsHexDigit(c)
    ensures AllHex(front + [c]) && HexValue(front + [c]) == 16 * HexValue(front) + HexDigitValue(c)
  {
    hide IsHexDigit, HexDigitValue;
    assert (front + [c])[..|front|] == front;
  }

  lemma HexDigitIs(n: nat)
    requires n < 16
    ensures IsHexDigit(HexDigit(n)) && HexDigitValue(HexDigit(n)) == n
  {
  }

  /** Every character can be written with its number, and no other number is one. */
  lemma EveryCharacter(n: nat, c: char)
    ensures AllHex(Hex(n))
    ensures FromHex(Hex(n)) == Some(c) <==> n == c as nat
    ensures FromHex(Hex(n)).None? <==> 0xD800 <= n < 0xE000 || n >= 0x11_0000
  {
    HexIsRead(n);
  }

  /** A character, the way a literal may contain it. */
  function Piece(c: char): StrPiece {
    if c in {'"', '\\', '{', '}'} then Slash(c)
    else if c == '\n' then Slash('n')
    else if c == '\t' then Slash('t')
    else if c == '\r' then Slash('r')
    else if c as nat < 32 || 127 <= c as nat then Unicode(Hex(c as nat))
    else Bare(c)
  }

  function Pieces(text: seq<char>): seq<StrPiece> {
    if text == [] then [] else [Piece(text[0])] + Pieces(text[1..])
  }

  lemma PieceMeans(c: char, cur: seq<char>, parts: seq<StrPart>)
    ensures Legal(Piece(c)) && CurAfter(Piece(c), cur) == cur + [c] && PartsAfter(Piece(c), cur, parts) == parts
  {
    EveryCharacter(c as nat, c);
    EscapesMean();
    hide Hex, FromHex, AllHex, SimpleEscape, Meant, Flushed;
  }

  lemma EscapesMean()
    ensures SimpleEscape('n') == Some('\n') && SimpleEscape('t') == Some('\t') && SimpleEscape('r') == Some('\r')
    ensures forall c <- {'"', '\\', '{', '}'} :: SimpleEscape(c) == Some(c)
  {
  }

  lemma {:induction false} PiecesMean(text: seq<char>, cur: seq<char>)
    ensures AllLegal(Pieces(text)) && Denoted(Pieces(text), cur, []) == Finished([], cur + text)
    decreases |text|
  {
    hide *;
    PiecesStep(text);
    if text == [] {
      assert cur + text == cur;
      NothingDenoted(cur);
    } else {
      var c, more := text[0], text[1..];
      PieceMeans(c, cur, []);
      PiecesMean(more, cur + [c]);
      DenotedStep(Piece(c), Pieces(more), cur, []);
      assert (cur + [c]) + more == cur + text;
    }
  }

  lemma PiecesStep(text: seq<char>)
    ensures text == [] ==> Pieces(text) == []
    ensures text != [] ==> Pieces(text) == [Piece(text[0])] + Pieces(text[1..])
  {
    hide Piece;
  }

  lemma NothingDenoted(cur: seq<char>)
    ensures AllLegal([]) && Denoted([], cur, []) == Finished([], cur)
  {
  }

  /** Any text at all can be written as a string, and is what is read. */
  lemma AnyText(text: seq<char>, rest: seq<char>)
    ensures AllLegal(Pieces(text))
    ensures LexString(Spelled(Pieces(text)) + (['"'] + rest), [], [], []) == Scanned([Literal(text)], rest, [])
  {
    PiecesMean(text, []);
    StringReads(Pieces(text), rest, [], [], []);
    hide LexString, Spelled, Denoted, Pieces, AllLegal;
    assert [] + text == text;
  }

  // ----- names -----

  predicate AllContinue(w: seq<char>, classes: Classes) {
    forall i :: 0 <= i < |w| ==> classes.continues(w[i])
  }

  predicate NameSpelled(w: seq<char>, classes: Classes) {
    w != [] && classes.starts(w[0]) && AllContinue(w[1..], classes)
  }

  lemma {:induction false} WordReads(w: seq<char>, rest: seq<char>, before: seq<char>, classes: Classes)
    requires AllContinue(w, classes)
    requires rest != [] ==> !classes.continues(rest[0])
    ensures ReadWord(w + rest, before, classes) == (before + w, rest)
    decreases |w|
  {
    WordStep(w + rest, before, classes);
    hide ReadWord;
    if w == [] {
      assert w + rest == rest && before + w == before;
    } else {
      WordReads(w[1..], rest, before + [w[0]], classes);
      assert (w + rest)[1..] == w[1..] + rest && (before + [w[0]]) + w[1..] == before + w;
    }
  }

  lemma {:induction false} WordWasSpelled(s: seq<char>, before: seq<char>, classes: Classes) returns (w: seq<char>)
    ensures var r := ReadWord(s, before, classes);
            r.0 == before + w && s == w + r.1 && (r.1 != [] ==> !classes.continues(r.1[0]))
    ensures AllContinue(w, classes)
    decreases |s|
  {
    hide *;
    WordStep(s, before, classes);
    NoneContinue(classes);
    if s != [] && classes.continues(s[0]) {
      var v := WordWasSpelled(s[1..], before + [s[0]], classes);
      var rest := ReadWord(s, before, classes).1;
      w := [s[0]] + v;
      assert s == [s[0]] + s[1..];
      Regroup([s[0]], v, rest);
      Regroup(before, [s[0]], v);
      OneContinues(s[0], v, classes);
    } else {
      w := [];
      assert before + w == before && w + s == s;
    }
  }

  lemma NoneContinue(classes: Classes)
    ensures AllContinue([], classes)
  {
  }

  lemma OneContinues(c: char, w: seq<char>, classes: Classes)
    requires classes.continues(c) && AllContinue(w, classes)
    ensures AllContinue([c] + w, classes)
  {
  }

  // ----- numbers -----

  /** Digits in groups, a fraction if there is one, and an exponent if there is one. */
  datatype Figures = Figures(whole: seq<seq<char>>, fraction: seq<seq<char>>, exponent: seq<char>)

  predicate Numeric(c: char) {
    c in "0123456789"
  }

  predicate AllDigits(s: seq<char>) {
    s != [] && forall i :: 0 <= i < |s| ==> Numeric(s[i])
  }

  predicate AllGroups(groups: seq<seq<char>>) {
    forall i :: 0 <= i < |groups| ==> AllDigits(groups[i])
  }

  /** Groups with underscores between them. */
  function Joined(groups: seq<seq<char>>): seq<char> {
    if groups == [] then [] else if |groups| == 1 then groups[0] else groups[0] + (['_'] + Joined(groups[1..]))
  }

  function Together(groups: seq<seq<char>>): seq<char> {
    if groups == [] then [] else groups[0] + Together(groups[1..])
  }

  /** A marker, perhaps a sign, and digits. */
  predicate ExponentSpelled(e: seq<char>) {
    && |e| >= 2 && e[0] in {'e', 'E'}
    && (AllDigits(e[1..]) || (e[1] in {'+', '-'} && AllDigits(e[2..])))
  }

  predicate FiguresSpelled(n: Figures) {
    && n.whole != [] && AllGroups(n.whole) && AllGroups(n.fraction)
    && (n.exponent == [] || ExponentSpelled(n.exponent))
  }

  function FractionWritten(n: Figures): seq<char> {
    if n.fraction == [] then [] else ['.'] + Joined(n.fraction)
  }

  function FiguresWritten(n: Figures): seq<char> {
    Joined(n.whole) + (FractionWritten(n) + n.exponent)
  }

  /** The number without its underscores. */
  function FiguresMean(n: Figures): seq<char> {
    Together(n.whole) + (if n.fraction == [] then [] else ['.'] + Together(n.fraction)) + n.exponent
  }

  predicate IsDecimal(n: Figures) {
    n.fraction != [] || n.exponent != []
  }

  predicate MoreDigits(rest: seq<char>) {
    rest != [] && (Numeric(rest[0]) || (|rest| >= 2 && rest[0] == '_' && Numeric(rest[1])))
  }

  predicate MoreFraction(rest: seq<char>) {
    |rest| >= 2 && rest[0] == '.' && Numeric(rest[1])
  }

  /** `rest` does not go on with the number. */
  predicate FiguresStop(n: Figures, rest: seq<char>) {
    if n.exponent != [] then rest == [] || !Numeric(rest[0])
    else
      && !MoreDigits(rest) && (rest == [] || rest[0] !in {'e', 'E'})
      && (n.fraction == [] ==> !MoreFraction(rest))
  }

  lemma DigitIs(c: char)
    ensures IsDigit(c) <==> Numeric(c)
  {
    var digits := "0123456789";
    if IsDigit(c) {
      assert digits[c as nat - '0' as nat] == c;
    }
  }

  lemma DigitsApart(g: seq<char>)
    requires AllDigits(g)
    ensures g != [] && Numeric(g[0]) && (g[1..] == [] || AllDigits(g[1..]))
  {
    hide Numeric;
  }

  lemma Underscore()
    ensures !IsDigit('_')
  {
  }

  lemma {:induction false} GroupReads(g: seq<char>, rest: seq<char>, digits: seq<char>)
    requires g == [] || AllDigits(g)
    ensures ReadDigits(g + rest, digits) == ReadDigits(rest, digits + g)
    decreases |g|
  {
    hide *;
    DigitsStep(g + rest, digits);
    if g == [] {
      assert g + rest == rest && digits + g == digits;
    } else {
      DigitsApart(g);
      DigitIs(g[0]);
      GroupReads(g[1..], rest, digits + [g[0]]);
      assert (g + rest)[1..] == g[1..] + rest && (digits + [g[0]]) + g[1..] == digits + g;
    }
  }

  lemma JoinedStep(groups: seq<seq<char>>, rest: seq<char>)
    requires groups != []
    ensures Joined(groups) + rest ==
              if |groups| == 1 then groups[0] + rest else groups[0] + (['_'] + (Joined(groups[1..]) + rest))
    ensures |groups| == 1 ==> Together(groups) == groups[0]
    ensures Together(groups) == groups[0] + Together(groups[1..])
  {
    if |groups| > 1 {
      Regroup(groups[0], ['_'] + Joined(groups[1..]), rest);
      Regroup(['_'], Joined(groups[1..]), rest);
    } else {
      assert groups[1..] == [] && groups[0] + [] == groups[0];
    }
  }

  lemma JoinedBegins(groups: seq<seq<char>>)
    requires groups != [] && AllGroups(groups)
    ensures Joined(groups) != [] && Numeric(Joined(groups)[0])
  {
    assert AllDigits(groups[0]);
  }

  lemma {:induction false} GroupsRead(groups: seq<seq<char>>, rest: seq<char>, digits: seq<char>)
    requires groups != [] && AllGroups(groups) && !MoreDigits(rest)
    ensures ReadDigits(Joined(groups) + rest, digits) == Run(digits + Together(groups), rest)
    decreases |groups|
  {
    hide *;
    var g := groups[0];
    GroupsApart(groups);
    JoinedStep(groups, rest);
    if |groups| == 1 {
      GroupReads(g, rest, digits);
      DigitsStep(rest, digits + g);
      DigitsMore(rest);
    } else {
      var more := Joined(groups[1..]) + rest;
      GroupReads(g, ['_'] + more, digits);
      DigitsStep(['_'] + more, digits + g);
      JoinedBegins(groups[1..]);
      DigitIs(more[0]);
      Underscore();
      assert (['_'] + more)[1..] == more;
      GroupsRead(groups[1..], rest, digits + g);
      Regroup(digits, g, Together(groups[1..]));
    }
  }

  lemma DigitsMore(rest: seq<char>)
    ensures MoreDigits(rest) <==>
              rest != [] && (IsDigit(rest[0]) || (|rest| >= 2 && rest[0] == '_' && IsDigit(rest[1])))
    ensures PointAndDigit(rest) <==> MoreFraction(rest)
  {
    if rest != [] { DigitIs(rest[0]); }
    if |rest| >= 2 { DigitIs(rest[1]); }
  }

  /** Digits that were read came in groups. */
  lemma OneDigit(c: char, g: seq<char>)
    requires Numeric(c) && (g == [] || AllDigits(g))
    ensures AllDigits([c] + g)
  {
    hide Numeric;
  }

  lemma GroupInFront(g: seq<char>, groups: seq<seq<char>>)
    requires AllDigits(g) && AllGroups(groups)
    ensures AllGroups([g] + groups)
  {
    hide AllDigits;
  }

  lemma GroupsApart(groups: seq<seq<char>>)
    requires groups != [] && AllGroups(groups)
    ensures AllDigits(groups[0]) && AllGroups(groups[1..])
  {
    hide AllDigits;
  }

  lemma {:induction false} DigitsWereGrouped(s: seq<char>, digits: seq<char>) returns (groups: seq<seq<char>>)
    requires s != [] && IsDigit(s[0])
    ensures groups != [] && AllGroups(groups)
    ensures var r := ReadDigits(s, digits);
            s == Joined(groups) + r.rest && r.digits == digits + Together(groups) && !MoreDigits(r.rest)
    decreases |s|
  {
    hide *;
    DigitsStep(s, digits);
    var c, t, r := s[0], s[1..], ReadDigits(s, digits);
    DigitsStep(t, digits + [c]);
    DigitIs(c);
    DigitsMore(t);
    assert s == [c] + t && [c] + [] == [c];
    OneDigit(c, []);
    NoGroups();
    if t != [] && IsDigit(t[0]) {
      var gs := DigitsWereGrouped(t, digits + [c]);
      GroupsApart(gs);
      var g, more := [c] + gs[0], gs[1..];
      groups := [g] + more;
      OneDigit(c, gs[0]);
      GroupInFront(g, more);
      assert groups[1..] == more && gs == [gs[0]] + more;
      JoinedStep(gs, r.rest);
      JoinedStep(groups, r.rest);
      var tail := if |gs| == 1 then r.rest else ['_'] + (Joined(more) + r.rest);
      Regroup([c], gs[0], tail);
      Regroup(digits, [c], Together(gs));
      Regroup([c], gs[0], Together(more));
    } else if |t| >= 2 && t[0] == '_' && IsDigit(t[1]) {
      var gs := DigitsWereGrouped(t[1..], digits + [c]);
      groups := [[c]] + gs;
      GroupInFront([c], gs);
      assert groups[1..] == gs && t == ['_'] + t[1..];
      JoinedStep(groups, r.rest);
      Regroup(digits, [c], Together(gs));
    } else {
      groups := [[c]] + [];
      GroupInFront([c], []);
      JoinedStep(groups, r.rest);
    }
  }

  lemma NoGroups()
    ensures AllGroups([])
  {
  }

  lemma {:induction false} ExponentDigitsRead(e: seq<char>, rest: seq<char>, digits: seq<char>)
    requires (e == [] || AllDigits(e)) && (rest == [] || !Numeric(rest[0]))
    ensures ReadExponentDigits(e + rest, digits) == Run(digits + e, rest)
    decreases |e|
  {
    hide *;
    ExponentDigitsStep(e + rest, digits);
    if e == [] {
      assert e + rest == rest && digits + e == digits;
      if rest != [] { DigitIs(rest[0]); }
    } else {
      DigitsApart(e);
      DigitIs(e[0]);
      ExponentDigitsRead(e[1..], rest, digits + [e[0]]);
      assert (e + rest)[1..] == e[1..] + rest && (digits + [e[0]]) + e[1..] == digits + e;
    }
  }

  lemma {:induction false} ExponentDigitsWere(s: seq<char>, digits: seq<char>) returns (e: seq<char>)
    ensures e == [] || AllDigits(e)
    ensures var r := ReadExponentDigits(s, digits);
            s == e + r.rest && r.digits == digits + e && (r.rest == [] || !Numeric(r.rest[0]))
    decreases |s|
  {
    hide *;
    ExponentDigitsStep(s, digits);
    if s != [] { DigitIs(s[0]); }
    if s != [] && IsDigit(s[0]) {
      var more := ExponentDigitsWere(s[1..], digits + [s[0]]);
      var r := ReadExponentDigits(s, digits);
      e := [s[0]] + more;
      OneDigit(s[0], more);
      assert s == [s[0]] + s[1..];
      Regroup([s[0]], more, r.rest);
      Regroup(digits, [s[0]], more);
    } else {
      e := [];
      assert e + s == s && digits + e == digits;
    }
  }

  function SpelledExponent(e: seq<char>): Option<seq<char>> {
    if e == [] then None else Some(e)
  }

  lemma ExponentReads(e: seq<char>, rest: seq<char>)
    requires e == [] || ExponentSpelled(e)
    requires if e == [] then rest == [] || rest[0] !in {'e', 'E'} else rest == [] || !Numeric(rest[0])
    ensures ReadExponent(e + rest) == Exponent(SpelledExponent(e), rest, [])
  {
    hide *;
    var s := e + rest;
    ExponentIs(s);
    if e == [] {
      assert s == rest;
      Unspelled();
    } else {
      ExponentParts(e);
      var n := if AllDigits(e[1..]) then 1 else 2;
      ExponentDigitsRead(e[n..], rest, []);
      FrontStays(e, rest, n);
      assert [] + e[n..] == e[n..];
    }
  }

  /** What is behind a text does not change its front. */
  lemma FrontStays(e: seq<char>, rest: seq<char>, n: nat)
    requires 1 <= n <= 2 <= |e|
    ensures var s := e + rest;
            && |s| >= 2 && s[0] == e[0] && s[1..] != [] && s[1..][0] == e[1]
            && s[n..] == e[n..] + rest && s[..n] == e[..n] && e[..n] + e[n..] == e
  {
    var s := e + rest;
    assert s[1] == e[1];
  }

  lemma Unspelled()
    ensures SpelledExponent([]) == None
  {
  }

  /** One exponent, unfolded. */
  lemma ExponentIs(s: seq<char>)
    ensures ReadExponent(s) ==
              if s == [] || s[0] !in {'e', 'E'} then Exponent(None, s, [])
              else
                var n := if s[1..] != [] && s[1..][0] in {'+', '-'} then 2 else 1;
                var run := ReadExponentDigits(s[n..], []);
                Exponent(Some(s[..n] + run.digits), run.rest, if run.digits == [] then [MissingExponent] else [])
  {
    hide ReadExponentDigits;
  }

  lemma ExponentParts(e: seq<char>)
    requires ExponentSpelled(e)
    ensures |e| >= 2 && e[0] in {'e', 'E'} && SpelledExponent(e) == Some(e)
    ensures var n := if AllDigits(e[1..]) then 1 else 2;
            AllDigits(e[n..]) && e[n..] != [] && (n == 2 <==> e[1] in {'+', '-'})
  {
    SignIsNoDigit(e[1]);
    hide Numeric;
    assert e[1..][0] == e[1];
  }

  lemma SignIsNoDigit(c: char)
    ensures c in {'+', '-'} ==> !Numeric(c)
  {
  }

  lemma ExponentWasSpelled(s: seq<char>) returns (e: seq<char>)
    requires ReadExponent(s).problems == []
    ensures var r := ReadExponent(s);
            && s == e + r.rest && r.text == SpelledExponent(e) && (e == [] || ExponentSpelled(e))
            && if e == [] then r.rest == [] || r.rest[0] !in {'e', 'E'} else r.rest == [] || !Numeric(r.rest[0])
  {
    hide *;
    var r := ReadExponent(s);
    ExponentIs(s);
    Unspelled();
    if s == [] || s[0] !in {'e', 'E'} {
      e := [];
      assert e + s == s;
    } else {
      var n := if s[1..] != [] && s[1..][0] in {'+', '-'} then 2 else 1;
      var digits := ExponentDigitsWere(s[n..], []);
      assert [] + digits == digits;
      NoneMissing(digits);
      e := s[..n] + digits;
      assert s == s[..n] + s[n..];
      Regroup(s[..n], digits, r.rest);
      ExponentJoined(s[..n], digits);
    }
  }

  lemma NoneMissing(digits: seq<char>)
    ensures (if digits == [] then [MissingExponent] else []) == [] ==> digits != []
  {
  }

  lemma ExponentJoined(front: seq<char>, digits: seq<char>)
    requires front != [] && front[0] in {'e', 'E'} && AllDigits(digits)
    requires |front| == 1 || (|front| == 2 && front[1] in {'+', '-'})
    ensures ExponentSpelled(front + digits) && SpelledExponent(front + digits) == Some(front + digits)
  {
    hide AllDigits;
    var e := front + digits;
    assert e[|front|..] == digits && e[0] == front[0] && (|front| == 2 ==> e[1] == front[1]);
    assert |e| >= 2 by { DigitsApart(digits); }
  }

  /** A number is read as it is spelled. */
  lemma FiguresRead(n: Figures, rest: seq<char>)
    requires FiguresSpelled(n) && FiguresStop(n, rest)
    ensures FiguresWritten(n) != [] && IsDigit(FiguresWritten(n)[0])
    ensures var s := FiguresWritten(n) + rest;
            LexNumber(s[0], s[1..]) == Number(IsDecimal(n), FiguresMean(n), rest, [])
  {
    hide *;
    var more := n.exponent + rest;
    var behind := BehindWhole(n, rest);
    var s := FiguresWritten(n) + rest;
    WrittenWith(n, rest);
    SpelledParts(n);
    JoinedBegins(n.whole);
    DigitIs(s[0]);
    GroupsRead(n.whole, behind, []);
    DigitsStep(s, []);
    NumberIs(s);
    ExponentReads(n.exponent, rest);
    MeaningWith(n);
    assert [] + [s[0]] == [s[0]] && [] + Together(n.whole) == Together(n.whole);
    if n.fraction != [] {
      assert behind[1..] == Joined(n.fraction) + more;
      BehindFraction(n, rest);
      GroupsRead(n.fraction, more, []);
      assert [] + Together(n.fraction) == Together(n.fraction);
    }
    WithExponentIs(n, rest);
  }

  lemma WithExponentIs(n: Figures, rest: seq<char>)
    ensures var text := if n.fraction == [] then Together(n.whole)
                        else Together(n.whole) + ['.'] + Together(n.fraction);
            WithExponent(n.fraction != [], text, Exponent(SpelledExponent(n.exponent), rest, [])) ==
              Number(IsDecimal(n), FiguresMean(n), rest, [])
  {
    MeaningWith(n);
    hide Together, FiguresMean;
  }

  lemma SpelledParts(n: Figures)
    requires FiguresSpelled(n)
    ensures n.whole != [] && AllGroups(n.whole) && AllGroups(n.fraction)
    ensures n.exponent == [] || ExponentSpelled(n.exponent)
  {
  }

  /** One number, unfolded. */
  lemma NumberIs(s: seq<char>)
    requires s != []
    ensures var whole := ReadDigits(s[1..], [s[0]]);
            LexNumber(s[0], s[1..]) ==
              if PointAndDigit(whole.rest) then
                var frac := ReadDigits(whole.rest[1..], []);
                WithExponent(true, whole.digits + ['.'] + frac.digits, ReadExponent(frac.rest))
              else WithExponent(false, whole.digits, ReadExponent(whole.rest))
  {
    hide ReadDigits, ReadExponent, WithExponent;
  }

  /** What is behind the whole part. */
  lemma BehindWhole(n: Figures, rest: seq<char>) returns (behind: seq<char>)
    requires FiguresSpelled(n) && FiguresStop(n, rest)
    ensures behind == if n.fraction == [] then n.exponent + rest else ['.'] + (Joined(n.fraction) + (n.exponent + rest))
    ensures !MoreDigits(behind) && (PointAndDigit(behind) <==> n.fraction != [])
    ensures if n.exponent == [] then rest == [] || rest[0] !in {'e', 'E'} else rest == [] || !Numeric(rest[0])
  {
    hide Joined, AllGroups, AllDigits;
    if n.fraction == [] {
      behind := n.exponent + rest;
      DigitsMore(behind);
      if n.exponent == [] {
        assert behind == rest;
      } else {
        assert behind[0] == n.exponent[0];
      }
    } else {
      behind := ['.'] + (Joined(n.fraction) + (n.exponent + rest));
      DigitsMore(behind);
      JoinedBegins(n.fraction);
      assert behind[0] == '.' && behind[1] == Joined(n.fraction)[0];
    }
  }

  lemma BehindFraction(n: Figures, rest: seq<char>)
    requires FiguresSpelled(n) && FiguresStop(n, rest)
    ensures !MoreDigits(n.exponent + rest)
  {
    if n.exponent == [] {
      assert n.exponent + rest == rest;
    }
  }

  /** Whatever is read as a number without a report was spelled so. */
  lemma FiguresWereSpelled(s: seq<char>) returns (n: Figures)
    requires s != [] && IsDigit(s[0]) && LexNumber(s[0], s[1..]).problems == []
    ensures var r := LexNumber(s[0], s[1..]);
            && FiguresSpelled(n) && FiguresStop(n, r.rest) && s == FiguresWritten(n) + r.rest
            && r.decimal == IsDecimal(n) && r.text == FiguresMean(n)
  {
    hide *;
    DigitsStep(s, []);
    NumberIs(s);
    assert [] + [s[0]] == [s[0]];
    var whole := ReadDigits(s, []);
    var groups := DigitsWereGrouped(s, []);
    assert [] + Together(groups) == Together(groups);
    DigitsMore(whole.rest);
    NoGroups();
    var behind, fraction := whole.rest, [];
    if PointAndDigit(whole.rest) {
      PointThenDigit(whole.rest);
      var t := whole.rest[1..];
      behind := ReadDigits(t, []).rest;
      fraction := DigitsWereGrouped(t, []);
      assert [] + Together(fraction) == Together(fraction);
    }
    NoReport(ReadExponent(behind));
    var e := ExponentWasSpelled(behind);
    n := Figures(groups, fraction, e);
    var rest := ReadExponent(behind).rest;
    WrittenWith(n, rest);
    EndsFigures(n, behind, rest);
    SpelledIf(n);
    WithExponentIs(n, rest);
    assert ReadExponent(behind) == Exponent(SpelledExponent(e), rest, []);
  }

  lemma PointThenDigit(s: seq<char>)
    requires PointAndDigit(s)
    ensures s != []
    ensures s == ['.'] + s[1..] && s[1..] != [] && IsDigit(s[1..][0])
  {
  }

  lemma NoReport(e: Exponent)
    ensures forall decimal, text :: WithExponent(decimal, text, e).problems == e.problems
    ensures forall decimal, text :: WithExponent(decimal, text, e).rest == e.rest
  {
  }

  lemma SpelledIf(n: Figures)
    requires n.whole != [] && AllGroups(n.whole) && AllGroups(n.fraction)
    requires n.exponent == [] || ExponentSpelled(n.exponent)
    ensures FiguresSpelled(n)
  {
  }

  lemma WrittenWith(n: Figures, rest: seq<char>)
    ensures FiguresWritten(n) + rest ==
              Joined(n.whole) + if n.fraction == [] then n.exponent + rest
                                else ['.'] + (Joined(n.fraction) + (n.exponent + rest))
  {
    hide Joined;
    if n.fraction != [] {
      assert FiguresWritten(n) + rest == Joined(n.whole) + (['.'] + (Joined(n.fraction) + (n.exponent + rest)));
    }
  }

  lemma MeaningWith(n: Figures)
    ensures var text := if n.fraction == [] then Together(n.whole)
                        else Together(n.whole) + ['.'] + Together(n.fraction);
            FiguresMean(n) == (if n.exponent == [] then text else text + n.exponent)
  {
    hide Together;
    assert Together(n.whole) + [] == Together(n.whole);
    assert Together(n.whole) + ['.'] + Together(n.fraction) == Together(n.whole) + (['.'] + Together(n.fraction));
    assert n.exponent == [] ==> FiguresMean(n) + [] == FiguresMean(n);
  }

  lemma EndsFigures(n: Figures, behind: seq<char>, rest: seq<char>)
    requires behind == n.exponent + rest && !MoreDigits(behind) && (n.fraction == [] ==> !MoreFraction(behind))
    requires if n.exponent == [] then rest == [] || rest[0] !in {'e', 'E'} else rest == [] || !Numeric(rest[0])
    ensures FiguresStop(n, rest)
  {
    if n.exponent == [] {
      assert behind == rest;
    }
  }

  // ----- strings between three quotes -----

  const QUOTES := ['"', '"', '"']

  predicate LongLegal(p: StrPiece): (r: bool)
    ensures r ==> Meaningful(p)
  {
    && Meaningful(p) && !p.Unicode?
    && (p.Bare? ==> p.c !in {'\\', '{'}) && (p.Slash? ==> p.c !in {'0', '\''})
  }

  /** Three quotes begin nowhere before `closing`. */
  predicate LongClean(ps: seq<StrPiece>, closing: seq<char>): (r: bool)
    ensures r ==> AllMeaningful(ps)
  {
    ps == [] || (
      && LongLegal(ps[0]) && LongClean(ps[1..], closing)
      && (ps[0] == Bare('"') ==> !ThreeQuotes(Spelled(ps) + closing)))
  }

  /** Three quotes, or a backslash at the end of the text. */
  predicate Closing(closing: seq<char>, rest: seq<char>) {
    closing == QUOTES || (closing == ['\\'] && rest == [])
  }

  lemma ClosesLong(closing: seq<char>, rest: seq<char>, cur: seq<char>, parts: seq<StrPart>, problems: seq<Message>)
    requires Closing(closing, rest)
    ensures LexTriple(closing + rest, cur, parts, problems) == Scanned(Finished(parts, cur), rest, problems)
  {
    var s := closing + rest;
    LexTripleStep(s, cur, parts, problems);
    hide LexTriple, Finished, Collect;
    if closing == QUOTES {
      assert s[0] == '"' && s[1] == '"' && s[2] == '"' && s[3..] == rest;
    } else {
      assert s == ['\\'];
    }
  }

  lemma LongSlash(c: char, after: seq<char>, cur: seq<char>, parts: seq<StrPart>, problems: seq<Message>)
    requires LongLegal(Slash(c))
    ensures LexTriple(['\\', c] + after, cur, parts, problems) ==
              LexTriple(after, cur + [SimpleEscape(c).value], parts, problems)
  {
    var s := ['\\', c] + after;
    LexTripleStep(s, cur, parts, problems);
    hide LexTriple, Collect, SimpleEscape, Finished, Flushed;
    assert s[1] == c && s[2..] == after && problems + [] == problems;
  }

  lemma LongInterpolated(chunks: seq<Chunk>, after: seq<char>, cur: seq<char>, parts: seq<StrPart>,
                         problems: seq<Message>)
    requires Meant(chunks)
    ensures LexTriple(['{'] + (ChunksText(chunks) + ['}']) + after, cur, parts, problems) ==
              LexTriple(after, [], Flushed(parts, cur) + [Expr(ChunksText(chunks))], problems)
  {
    hide *;
    var text := ChunksText(chunks);
    var s := ['{'] + (text + ['}']) + after;
    BraceOpens(s);
    LexTripleStep(s, cur, parts, problems);
    assert s[1..] == text + (['}'] + after);
    InterpolationEndsExactly(s[1..], text, after);
    NothingToComplain(text, after);
    assert problems + [] == problems;
  }

  lemma BraceOpens(s: seq<char>)
    requires s != [] && s[0] == '{'
    ensures !ThreeQuotes(s)
  {
  }

  lemma NothingToComplain(text: seq<char>, after: seq<char>)
    ensures Complaint(Collected(text, Ended(after))) == [] && AfterCollected(Collected(text, Ended(after))) == after
  {
  }

  /** A legal piece is read whole, if it does not begin the closing quotes. */
  lemma LongPieceRead(p: StrPiece, after: seq<char>, cur: seq<char>, parts: seq<StrPart>, problems: seq<Message>)
    requires LongLegal(p) && (p == Bare('"') ==> !ThreeQuotes(PieceText(p) + after))
    ensures LexTriple(PieceText(p) + after, cur, parts, problems) ==
              LexTriple(after, CurAfter(p, cur), PartsAfter(p, cur, parts), problems)
  {
    hide LexTriple, ChunksText, FromHex, Meant, SimpleEscape, AllHex, Flushed;
    match p
    case Bare(c) =>
      LexTripleStep([c] + after, cur, parts, problems);
      assert ([c] + after)[1..] == after;
    case Slash(c) => LongSlash(c, after, cur, parts, problems);
    case Interpolated(chunks) => LongInterpolated(chunks, after, cur, parts, problems);
  }

  lemma QuotesStay(text: seq<char>, closing: seq<char>, rest: seq<char>)
    requires Closing(closing, rest) && text != []
    ensures ThreeQuotes(text + closing) == ThreeQuotes(text + (closing + rest))
  {
    var s := text + closing;
    Regroup(text, closing, rest);
    if closing == QUOTES {
      assert (s + rest)[0] == s[0] && (s + rest)[1] == s[1] && (s + rest)[2] == s[2];
    } else {
      assert s + rest == s;
    }
  }

  /** Pieces are read up to the closing quotes, and mean what they mean between single ones. */
  lemma {:induction false} LongReads(ps: seq<StrPiece>, closing: seq<char>, rest: seq<char>, cur: seq<char>,
                                     parts: seq<StrPart>, problems: seq<Message>)
    requires LongClean(ps, closing) && Closing(closing, rest)
    ensures LexTriple(Spelled(ps) + (closing + rest), cur, parts, problems) ==
              Scanned(Denoted(ps, cur, parts), rest, problems)
    decreases |ps|
  {
    if ps == [] {
      assert Spelled(ps) + (closing + rest) == closing + rest;
      ClosesLong(closing, rest, cur, parts, problems);
      hide LexTriple, Finished;
    } else {
      var p, tail := ps[0], ps[1..];
      assert ps == [p] + tail;
      DenotedStep(p, tail, cur, parts);
      QuotesStay(Spelled(ps), closing, rest) by { SpelledSome(p, tail); }
      hide LexTriple, Denoted, Spelled, ThreeQuotes, PieceText, LongLegal, Meaningful, CurAfter, PartsAfter;
      var after := Spelled(tail) + (closing + rest);
      LongReads(tail, closing, rest, CurAfter(p, cur), PartsAfter(p, cur, parts), problems);
      Regroup(PieceText(p), Spelled(tail), closing + rest);
      LongPieceRead(p, after, cur, parts, problems);
    }
  }

  lemma SpelledSome(p: StrPiece, ps: seq<StrPiece>)
    ensures Spelled([p] + ps) == PieceText(p) + Spelled(ps) && Spelled([p] + ps) != []
  {
    assert ([p] + ps)[1..] == ps;
    hide PieceText;
  }

  lemma CollectShortens(s: seq<char>)
    ensures |AfterCollected(Collect(s, 1))| <= |s|
  {
    CollectSuffix(s, 1);
  }

  /** Nothing that was reported is taken back. */
  lemma {:induction false} LongReportsStay(s: seq<char>, cur: seq<char>, parts: seq<StrPart>, problems: seq<Message>)
    ensures problems <= LexTriple(s, cur, parts, problems).problems
    decreases |s|
  {
    hide *;
    LexTripleStep(s, cur, parts, problems);
    if !ThreeQuotes(s) && s != [] {
      if s[0] == '\\' {
        if |s| > 1 {
          var e := EscapeBy(TripleEscape(s[1]), s[2..]);
          LongReportsStay(s[2..], cur + e.added, parts, problems + e.problems);
        }
      } else if s[0] == '{' {
        var c := Collect(s[1..], 1);
        CollectShortens(s[1..]);
        LongReportsStay(AfterCollected(c), [], Flushed(parts, cur) + [Expr(c.text)], problems + Complaint(c));
      } else {
        LongReportsStay(s[1..], cur + [s[0]], parts, problems);
      }
    }
  }

  /** Whatever is read between three quotes without a report was spelled so. */
  lemma {:induction false} LongWasSpelled(s: seq<char>, cur: seq<char>, parts: seq<StrPart>, problems: seq<Message>)
    returns (ps: seq<StrPiece>, closing: seq<char>)
    requires LexTriple(s, cur, parts, problems).problems == problems
    ensures var rest := LexTriple(s, cur, parts, problems).rest;
            LongClean(ps, closing) && Closing(closing, rest) && s == Spelled(ps) + (closing + rest)
    decreases |s|
  {
    hide *;
    LexTripleStep(s, cur, parts, problems);
    var r := LexTriple(s, cur, parts, problems);
    ReportsOnce(problems, UnterminatedLiteral);
    if ThreeQuotes(s) || s == ['\\'] {
      closing := LongEnds(s);
      ps := [];
      NothingSpelled();
      NothingLong(closing);
      assert s == [] + (closing + r.rest);
    } else {
      var p, after, cur1, parts1 := FirstLong(s, cur, parts, problems);
      var tail;
      tail, closing := LongWasSpelled(after, cur1, parts1, problems);
      ps := [p] + tail;
      SpelledSome(p, tail);
      Regroup(PieceText(p), Spelled(tail), closing + r.rest);
      QuotesStay(Spelled(ps), closing, r.rest);
      LongStep(p, tail, closing);
    }
  }

  lemma LongEnds(s: seq<char>) returns (closing: seq<char>)
    requires ThreeQuotes(s) || s == ['\\']
    ensures ThreeQuotes(s) ==> Closing(closing, s[3..]) && s == closing + s[3..]
    ensures !ThreeQuotes(s) ==> Closing(closing, []) && s == closing + []
  {
    closing := if ThreeQuotes(s) then QUOTES else s;
  }

  lemma NothingLong(closing: seq<char>)
    ensures LongClean([], closing)
  {
  }

  lemma LongStep(p: StrPiece, ps: seq<StrPiece>, closing: seq<char>)
    requires LongLegal(p) && LongClean(ps, closing)
    requires p == Bare('"') ==> !ThreeQuotes(Spelled([p] + ps) + closing)
    ensures LongClean([p] + ps, closing)
  {
    assert ([p] + ps)[1..] == ps;
    hide Spelled, ThreeQuotes, LongLegal;
  }

  /** The first piece of a string between three quotes that is read without a report. */
  lemma FirstLong(s: seq<char>, cur: seq<char>, parts: seq<StrPart>, problems: seq<Message>)
    returns (p: StrPiece, after: seq<char>, cur1: seq<char>, parts1: seq<StrPart>)
    requires LexTriple(s, cur, parts, problems).problems == problems && !ThreeQuotes(s) && s != ['\\']
    ensures LongLegal(p) && s == PieceText(p) + after && |after| < |s|
    ensures LexTriple(s, cur, parts, problems) == LexTriple(after, cur1, parts1, problems)
  {
    hide *;
    LexTripleStep(s, cur, parts, problems);
    ReportsOnce(problems, UnterminatedLiteral);
    assert problems + [] == problems;
    if s[0] == '\\' {
      NotAlone(s);
      var e := EscapeBy(TripleEscape(s[1]), s[2..]);
      LongReportsStay(s[2..], cur + e.added, parts, problems + e.problems);
      NoMore(problems, e.problems);
      LongEscapeLegal(s[1], s[2..]);
      p, after, cur1, parts1 := Slash(s[1]), s[2..], cur + e.added, parts;
      assert s == ['\\', s[1]] + s[2..];
    } else if s[0] == '{' {
      var c := Collect(s[1..], 1);
      cur1, parts1 := [], Flushed(parts, cur) + [Expr(c.text)];
      LongReportsStay(AfterCollected(c), cur1, parts1, problems + Complaint(c));
      NoMore(problems, Complaint(c));
      NoComplaint(c);
      after := AfterCollected(c);
      InterpolationEndsExactly(s[1..], c.text, after);
      var cs :| Meant(cs) && c.text == ChunksText(cs) && s[1..] == c.text + (['}'] + after);
      p := Interpolated(cs);
      InterpolatedLegal(cs);
      LongInterpolation(cs);
      assert s == ['{'] + s[1..];
      Regroup(c.text, ['}'], after);
      Regroup(['{'], c.text + ['}'], after);
    } else {
      p, after, cur1, parts1 := Bare(s[0]), s[1..], cur + [s[0]], parts;
      LongBare(s[0]);
      assert s == [s[0]] + s[1..];
    }
  }

  lemma NotAlone(s: seq<char>)
    requires s != [] && s != [s[0]]
    ensures |s| > 1
  {
  }

  lemma LongBare(c: char)
    requires c !in {'\\', '{'}
    ensures LongLegal(Bare(c)) && PieceText(Bare(c)) == [c]
  {
  }

  lemma LongInterpolation(cs: seq<Chunk>)
    requires Meant(cs)
    ensures LongLegal(Interpolated(cs))
  {
  }

  lemma LongEscapeLegal(c: char, rest: seq<char>)
    requires EscapeBy(TripleEscape(c), rest).problems == []
    ensures LongLegal(Slash(c)) && PieceText(Slash(c)) == ['\\', c]
  {
  }
}

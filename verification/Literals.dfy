/**
 Tokens whose end is found by a loop (`lex_string`, `lex_triple_string`,
 `lex_number` in `src/lexer/mod.rs`): what they denote, where they end and what
 they report.
 */
module Literals {
  import opened Values
  import opened Delimiters

  datatype Message =
    | UnexpectedCharacter
    | UnterminatedComment
    | UnterminatedInterpolation
    | UnterminatedString
    | UnterminatedLiteral
    | UnterminatedEscape
    | UnknownEscape
    | ExpectedBrace
    | InvalidHexDigit
    | InvalidUnicode
    | MissingExponent
    | InvalidDecimal

  // ----- the text is read from the front -----

  /** What is left after some of `s` was read. */
  predicate Suffix(rest: seq<char>, s: seq<char>) {
    |rest| <= |s| && s[|s| - |rest|..] == rest
  }

  lemma SuffixOf(s: seq<char>, n: nat)
    requires n <= |s|
    ensures Suffix(s[n..], s)
  {
  }

  lemma SuffixThrough(a: seq<char>, b: seq<char>, c: seq<char>)
    requires Suffix(a, b) && Suffix(b, c)
    ensures Suffix(a, c)
  {
  }

  /** As `SuffixThrough`, after one more character or two. */
  lemma SuffixAfter(a: seq<char>, s: seq<char>, n: nat)
    requires n <= |s| && Suffix(a, s[n..])
    ensures Suffix(a, s) && |a| <= |s| - n
  {
    SuffixOf(s, n);
    SuffixThrough(a, s[n..], s);
  }

  // ----- strings -----

  datatype StrPart = Literal(text: seq<char>) | Expr(source: seq<char>)

  /** A string's parts, what follows it, and what was reported. */
  datatype Scanned = Scanned(parts: seq<StrPart>, rest: seq<char>, problems: seq<Message>)

  /** Characters collected since the last interpolation become a part. */
  function Flushed(parts: seq<StrPart>, cur: seq<char>): seq<StrPart> {
    if cur == [] then parts else parts + [Literal(cur)]
  }

  /** A string has one part at least. */
  function Finished(parts: seq<StrPart>, cur: seq<char>): seq<StrPart> {
    if Flushed(parts, cur) == [] then [Literal([])] else Flushed(parts, cur)
  }

  predicate IsDigit(c: char) {
    '0' <= c <= '9'
  }

  predicate IsHexDigit(c: char) {
    IsDigit(c) || 'a' <= c <= 'f' || 'A' <= c <= 'F'
  }

  function HexDigitValue(c: char): nat
    requires IsHexDigit(c)
  {
    if IsDigit(c) then c as nat - '0' as nat
    else if 'a' <= c <= 'f' then c as nat - 'a' as nat + 10
    else c as nat - 'A' as nat + 10
  }

  function HexRun(s: seq<char>): (r: seq<char>)
    ensures |r| <= |s| && s[..|r|] == r && forall i :: 0 <= i < |r| ==> IsHexDigit(r[i])
    ensures |r| < |s| ==> !IsHexDigit(s[|r|])
  {
    if s == [] || !IsHexDigit(s[0]) then [] else [s[0]] + HexRun(s[1..])
  }

  function HexValue(hex: seq<char>): nat
    requires forall i :: 0 <= i < |hex| ==> IsHexDigit(hex[i])
  {
    if hex == [] then 0 else 16 * HexValue(hex[..|hex| - 1]) + HexDigitValue(hex[|hex| - 1])
  }

  /** Code points that are characters. */
  predicate Scalar(n: nat) {
    n < 0xD800 || 0xE000 <= n < 0x11_0000
  }

  /** What an escape adds, what follows it, and what was reported. */
  datatype Escape = Escape(added: seq<char>, rest: seq<char>, problems: seq<Message>)

  /** The character written in hexadecimal. */
  function FromHex(hex: seq<char>): Option<char>
    requires forall i :: 0 <= i < |hex| ==> IsHexDigit(hex[i])
  {
    if hex != [] && Scalar(HexValue(hex)) then Some(HexValue(hex) as char) else None
  }

  /**
   After `\u`: hexadecimal digits in braces; a missing closing brace is only reported if another character stands
   there.
   */
  function UnicodeEscape(s: seq<char>): (r: Escape)
    ensures Suffix(r.rest, s)
  {
    if s == [] || s[0] != '{' then SuffixOf(s, 0); Escape([], s, [ExpectedBrace])
    else
      var hex := HexRun(s[1..]);
      var n := 1 + |hex|;
      var bad := if n < |s| && s[n] != '}' then [InvalidHexDigit] else [];
      var m := if n < |s| && s[n] == '}' then n + 1 else n;
      SuffixOf(s, m);
      match FromHex(hex)
      case Some(c) => Escape([c], s[m..], bad)
      case None => Escape([], s[m..], bad + [InvalidUnicode])
  }

  /** The escapes of one character. */
  function SimpleEscape(c: char): Option<char> {
    if c == 'n' then Some('\n')
    else if c == 't' then Some('\t')
    else if c == 'r' then Some('\r')
    else if c == '0' then Some('\0')
    else if c in {'\\', '"', '\'', '{', '}'} then Some(c)
    else None
  }

  /** A triple-quoted string has fewer of them. */
  function TripleEscape(c: char): Option<char> {
    if c in {'0', '\''} then None else SimpleEscape(c)
  }

  function EscapeBy(known: Option<char>, rest: seq<char>): Escape {
    match known
    case Some(c) => Escape([c], rest, [])
    case None => Escape([], rest, [UnknownEscape])
  }

  /** After a backslash. */
  function StringEscape(s: seq<char>): (r: Escape)
    requires s != []
    ensures Suffix(r.rest, s) && |r.rest| < |s|
  {
    SuffixOf(s, 1);
    if s[0] == 'u' then
      SuffixAfter(UnicodeEscape(s[1..]).rest, s, 1);
      UnicodeEscape(s[1..])
    else EscapeBy(SimpleEscape(s[0]), s[1..])
  }

  /** What is left after an interpolation. */
  function AfterCollected(r: Collected): seq<char> {
    match r.end
    case Ended(rest) => rest
    case Missing(_) => []
  }

  function Complaint(r: Collected): seq<Message> {
    match r.end
    case Ended(_) => []
    case Missing(inString) => (if inString then [UnterminatedString] else []) + [UnterminatedInterpolation]
  }

  lemma {:induction false} SkipStringSuffix(s: seq<char>)
    ensures SkipString(s).1.Some? ==> Suffix(SkipString(s).1.value, s)
    decreases |s|
  {
    if s != [] {
      if s[0] == '"' {
        SuffixOf(s, 1);
      } else {
        var n := if s[0] == '\\' && |s| >= 2 then 2 else 1;
        SkipStringSuffix(s[n..]);
        if SkipString(s[n..]).1.Some? {
          SuffixAfter(SkipString(s[n..]).1.value, s, n);
        }
      }
    }
  }

  lemma {:induction false} CollectSuffix(s: seq<char>, depth: nat)
    requires depth > 0
    ensures Suffix(AfterCollected(Collect(s, depth)), s)
    decreases |s|
  {
    SuffixOf(s, |s|);
    if s != [] {
      CollectStep(s, depth);
      hide Collect, SkipString;
      if s[0] == '"' {
        SkipStringSuffix(s[1..]);
        var str := SkipString(s[1..]);
        if str.1.Some? {
          CollectSuffix(str.1.value, depth);
          SuffixThrough(AfterCollected(Collect(str.1.value, depth)), str.1.value, s[1..]);
          SuffixAfter(AfterCollected(Collect(str.1.value, depth)), s, 1);
        }
      } else {
        SuffixOf(s, 1);
        if !(s[0] == '}' && depth == 1) {
          var next := if s[0] == '{' then depth + 1 else if s[0] == '}' then depth - 1 else depth;
          CollectSuffix(s[1..], next);
          SuffixAfter(AfterCollected(Collect(s[1..], next)), s, 1);
        }
      }
    }
  }

  /** A string whose opening quote was read, with the parts, characters and reports so far. */
  function LexString(s: seq<char>, cur: seq<char>, parts: seq<StrPart>, problems: seq<Message>): (r: Scanned)
    ensures Suffix(r.rest, s)
    decreases |s|
  {
    if s == [] then Scanned(Finished(parts, cur), [], problems + [UnterminatedLiteral])
    else if s[0] == '"' then SuffixOf(s, 1); Scanned(Finished(parts, cur), s[1..], problems)
    else if s[0] == '\\' then
      if |s| == 1 then SuffixOf(s, 1); Scanned(Finished(parts, cur), [], problems + [UnterminatedEscape])
      else
        var e := StringEscape(s[1..]);
        var r := LexString(e.rest, cur + e.added, parts, problems + e.problems);
        SuffixThrough(r.rest, e.rest, s[1..]);
        SuffixAfter(r.rest, s, 1);
        r
    else if s[0] == '{' then
      var c := Collect(s[1..], 1);
      CollectSuffix(s[1..], 1);
      var r := LexString(AfterCollected(c), [], Flushed(parts, cur) + [Expr(c.text)], problems + Complaint(c));
      SuffixThrough(r.rest, AfterCollected(c), s[1..]);
      SuffixAfter(r.rest, s, 1);
      r
    else
      var r := LexString(s[1..], cur + [s[0]], parts, problems);
      SuffixAfter(r.rest, s, 1);
      r
  }

  predicate ThreeQuotes(s: seq<char>) {
    |s| >= 3 && s[0] == '"' && s[1] == '"' && s[2] == '"'
  }

  /** A string after three quotes; a text that ends with a backslash ends it without a report. */
  function LexTriple(s: seq<char>, cur: seq<char>, parts: seq<StrPart>, problems: seq<Message>): (r: Scanned)
    ensures Suffix(r.rest, s)
    decreases |s|
  {
    if ThreeQuotes(s) then SuffixOf(s, 3); Scanned(Finished(parts, cur), s[3..], problems)
    else if s == [] then Scanned(Finished(parts, cur), [], problems + [UnterminatedLiteral])
    else if s[0] == '\\' then
      if |s| == 1 then SuffixOf(s, 1); Scanned(Finished(parts, cur), [], problems)
      else
        var e := EscapeBy(TripleEscape(s[1]), s[2..]);
        var r := LexTriple(s[2..], cur + e.added, parts, problems + e.problems);
        SuffixAfter(r.rest, s, 2);
        r
    else if s[0] == '{' then
      var c := Collect(s[1..], 1);
      CollectSuffix(s[1..], 1);
      var r := LexTriple(AfterCollected(c), [], Flushed(parts, cur) + [Expr(c.text)], problems + Complaint(c));
      SuffixThrough(r.rest, AfterCollected(c), s[1..]);
      SuffixAfter(r.rest, s, 1);
      r
    else
      var r := LexTriple(s[1..], cur + [s[0]], parts, problems);
      SuffixAfter(r.rest, s, 1);
      r
  }

  /** The newline right after the opening quotes is not part of the string. */
  function WithoutNewline(s: seq<char>): (r: seq<char>)
    ensures Suffix(r, s)
  {
    var n := if s != [] && s[0] == '\n' then 1 else if |s| >= 2 && s[0] == '\r' && s[1] == '\n' then 2 else 0;
    SuffixOf(s, n);
    s[n..]
  }

  /** A string of either kind, after its first quote. */
  function LexQuoted(s: seq<char>): (r: Scanned)
    ensures Suffix(r.rest, s)
  {
    if |s| >= 2 && s[0] == '"' && s[1] == '"' then
      var body := WithoutNewline(s[2..]);
      var r := LexTriple(body, [], [], []);
      SuffixThrough(r.rest, body, s[2..]);
      SuffixAfter(r.rest, s, 2);
      r
    else LexString(s, [], [], [])
  }

  // ----- numbers -----

  /** Digits, without the underscores between them, and what follows them. */
  datatype Run = Run(digits: seq<char>, rest: seq<char>)

  function ReadDigits(s: seq<char>, digits: seq<char>): (r: Run)
    ensures Suffix(r.rest, s)
    decreases |s|
  {
    if s != [] && IsDigit(s[0]) then
      var r := ReadDigits(s[1..], digits + [s[0]]);
      SuffixAfter(r.rest, s, 1);
      r
    else if |s| >= 2 && s[0] == '_' && IsDigit(s[1]) then
      var r := ReadDigits(s[1..], digits);
      SuffixAfter(r.rest, s, 1);
      r
    else SuffixOf(s, 0); Run(digits, s)
  }

  /** The digits of an exponent have no underscores. */
  function ReadExponentDigits(s: seq<char>, digits: seq<char>): (r: Run)
    ensures Suffix(r.rest, s)
    ensures |r.digits| >= |digits|
    decreases |s|
  {
    if s != [] && IsDigit(s[0]) then
      var r := ReadExponentDigits(s[1..], digits + [s[0]]);
      SuffixAfter(r.rest, s, 1);
      r
    else SuffixOf(s, 0); Run(digits, s)
  }

  /** The text of an exponent, what follows it, and what was reported; a marker without digits is read all the same. */
  datatype Exponent = Exponent(text: Option<seq<char>>, rest: seq<char>, problems: seq<Message>)

  function SignWidth(s: seq<char>): (n: nat)
    ensures n <= |s| && n <= 1
  {
    if s != [] && s[0] in {'+', '-'} then 1 else 0
  }

  function ReadExponent(s: seq<char>): (r: Exponent)
    ensures Suffix(r.rest, s)
  {
    if s == [] || s[0] !in {'e', 'E'} then SuffixOf(s, 0); Exponent(None, s, [])
    else
      var n := 1 + SignWidth(s[1..]);
      var run := ReadExponentDigits(s[n..], []);
      SuffixAfter(run.rest, s, n);
      Exponent(Some(s[..n] + run.digits), run.rest, if run.digits == [] then [MissingExponent] else [])
  }

  /** A number's text without underscores; it is a decimal if it has a fraction or an exponent. */
  datatype Number = Number(decimal: bool, text: seq<char>, rest: seq<char>, problems: seq<Message>)

  function WithExponent(decimal: bool, text: seq<char>, e: Exponent): Number {
    match e.text
    case None => Number(decimal, text, e.rest, e.problems)
    case Some(exp) => Number(true, text + exp, e.rest, e.problems)
  }

  predicate PointAndDigit(s: seq<char>) {
    |s| >= 2 && s[0] == '.' && IsDigit(s[1])
  }

  /** A number after its first digit. */
  function LexNumber(first: char, s: seq<char>): (r: Number)
    ensures Suffix(r.rest, s)
  {
    var whole := ReadDigits(s, [first]);
    if PointAndDigit(whole.rest) then
      var frac := ReadDigits(whole.rest[1..], []);
      var e := ReadExponent(frac.rest);
      SuffixThrough(e.rest, frac.rest, whole.rest[1..]);
      SuffixAfter(e.rest, whole.rest, 1);
      SuffixThrough(e.rest, whole.rest, s);
      WithExponent(true, whole.digits + ['.'] + frac.digits, e)
    else
      var e := ReadExponent(whole.rest);
      SuffixThrough(e.rest, whole.rest, s);
      WithExponent(false, whole.digits, e)
  }

  // ----- where a string without complaints ends -----

  /** What a string is written with: characters, escapes, and interpolations. */
  datatype StrPiece = Bare(c: char) | Slash(c: char) | Unicode(hex: seq<char>) | Interpolated(chunks: seq<Chunk>)

  predicate AllHex(hex: seq<char>) {
    forall i :: 0 <= i < |hex| ==> IsHexDigit(hex[i])
  }

  predicate Meaningful(p: StrPiece) {
    match p
    case Bare(_) => true
    case Slash(c) => SimpleEscape(c).Some?
    case Unicode(hex) => AllHex(hex) && FromHex(hex).Some?
    case Interpolated(chunks) => Meant(chunks)
  }

  predicate AllMeaningful(ps: seq<StrPiece>) {
    forall i :: 0 <= i < |ps| ==> Meaningful(ps[i])
  }

  predicate Legal(p: StrPiece): (r: bool)
    ensures r ==> Meaningful(p)
  {
    Meaningful(p) && (p.Bare? ==> p.c !in {'"', '\\', '{'})
  }

  predicate AllLegal(ps: seq<StrPiece>): (r: bool)
    ensures r ==> AllMeaningful(ps)
  {
    forall i :: 0 <= i < |ps| ==> Legal(ps[i])
  }

  function PieceText(p: StrPiece): (r: seq<char>)
    ensures r != []
  {
    match p
    case Bare(c) => [c]
    case Slash(c) => ['\\', c]
    case Unicode(hex) => ['\\', 'u', '{'] + hex + ['}']
    case Interpolated(chunks) => ['{'] + (ChunksText(chunks) + ['}'])
  }

  function Spelled(ps: seq<StrPiece>): seq<char> {
    if ps == [] then [] else PieceText(ps[0]) + Spelled(ps[1..])
  }

  /** The parts the pieces stand for, behind parts and characters already there. */
  function Denoted(ps: seq<StrPiece>, cur: seq<char>, parts: seq<StrPart>): seq<StrPart>
    requires AllMeaningful(ps)
    decreases |ps|
  {
    if ps == [] then Finished(parts, cur)
    else
      match ps[0]
      case Bare(c) => Denoted(ps[1..], cur + [c], parts)
      case Slash(c) => Denoted(ps[1..], cur + [SimpleEscape(c).value], parts)
      case Unicode(hex) => Denoted(ps[1..], cur + [FromHex(hex).value], parts)
      case Interpolated(chunks) => Denoted(ps[1..], [], Flushed(parts, cur) + [Expr(ChunksText(chunks))])
  }

  function CurAfter(p: StrPiece, cur: seq<char>): seq<char>
    requires Meaningful(p)
  {
    match p
    case Bare(c) => cur + [c]
    case Slash(c) => cur + [SimpleEscape(c).value]
    case Unicode(hex) => cur + [FromHex(hex).value]
    case Interpolated(_) => []
  }

  function PartsAfter(p: StrPiece, cur: seq<char>, parts: seq<StrPart>): seq<StrPart> {
    match p
    case Interpolated(chunks) => Flushed(parts, cur) + [Expr(ChunksText(chunks))]
    case _ => parts
  }

  lemma DenotedStep(p: StrPiece, ps: seq<StrPiece>, cur: seq<char>, parts: seq<StrPart>)
    requires Meaningful(p) && AllMeaningful(ps)
    ensures AllMeaningful([p] + ps) && (Legal(p) && AllLegal(ps) ==> AllLegal([p] + ps))
    ensures Denoted([p] + ps, cur, parts) == Denoted(ps, CurAfter(p, cur), PartsAfter(p, cur, parts))
    ensures Spelled([p] + ps) == PieceText(p) + Spelled(ps)
  {
    var all := [p] + ps;
    assert all[1..] == ps && forall i :: 0 < i < |all| ==> all[i] == ps[i - 1];
    hide Legal, Meaningful, PieceText, ChunksText, SimpleEscape, FromHex, Finished, Flushed;
  }

  lemma {:induction false} HexRunExact(hex: seq<char>, after: seq<char>)
    requires AllHex(hex) && (after != [] ==> !IsHexDigit(after[0]))
    ensures HexRun(hex + after) == hex
    decreases |hex|
  {
    if hex == [] {
      assert hex + after == after;
    } else {
      assert (hex + after)[1..] == hex[1..] + after;
      HexRunExact(hex[1..], after);
    }
  }

  lemma UnicodeRead(hex: seq<char>, after: seq<char>)
    requires AllHex(hex) && FromHex(hex).Some?
    ensures UnicodeEscape(['{'] + (hex + (['}'] + after))) == Escape([FromHex(hex).value], after, [])
  {
    var tail := hex + (['}'] + after);
    var s := ['{'] + tail;
    HexRunExact(hex, ['}'] + after);
    assert s[1..] == tail && tail[|hex|] == '}' && tail[|hex| + 1..] == after;
    assert s[1 + |hex|] == '}' && s[2 + |hex|..] == after;
    hide HexRun, FromHex;
  }

  lemma LexStringStep(s: seq<char>, cur: seq<char>, parts: seq<StrPart>, problems: seq<Message>)
    ensures LexString(s, cur, parts, problems) ==
              if s == [] then Scanned(Finished(parts, cur), [], problems + [UnterminatedLiteral])
              else if s[0] == '"' then Scanned(Finished(parts, cur), s[1..], problems)
              else if s[0] == '\\' then
                if |s| == 1 then Scanned(Finished(parts, cur), [], problems + [UnterminatedEscape])
                else
                  var e := StringEscape(s[1..]);
                  LexString(e.rest, cur + e.added, parts, problems + e.problems)
              else if s[0] == '{' then
                var c := Collect(s[1..], 1);
                LexString(AfterCollected(c), [], Flushed(parts, cur) + [Expr(c.text)], problems + Complaint(c))
              else LexString(s[1..], cur + [s[0]], parts, problems)
  {
    hide StringEscape, Collect, Finished, Flushed, AfterCollected, Complaint;
  }

  lemma SlashStep(s: seq<char>, cur: seq<char>, parts: seq<StrPart>, problems: seq<Message>)
    requires |s| >= 2 && s[0] == '\\'
    ensures var e := StringEscape(s[1..]);
            LexString(s, cur, parts, problems) == LexString(e.rest, cur + e.added, parts, problems + e.problems)
  {
    LexStringStep(s, cur, parts, problems);
    hide LexString, StringEscape;
  }

  lemma SlashRead(c: char, after: seq<char>, cur: seq<char>, parts: seq<StrPart>, problems: seq<Message>)
    requires SimpleEscape(c).Some?
    ensures LexString(['\\', c] + after, cur, parts, problems) ==
              LexString(after, cur + [SimpleEscape(c).value], parts, problems)
  {
    hide *;
    var s := ['\\', c] + after;
    SlashStep(s, cur, parts, problems);
    assert s[1..] == [c] + after && s[1..][1..] == after;
    EscapeOfSimple(s[1..]);
    assert problems + [] == problems;
  }

  lemma EscapeOfSimple(s: seq<char>)
    requires s != [] && SimpleEscape(s[0]).Some?
    ensures StringEscape(s) == Escape([SimpleEscape(s[0]).value], s[1..], [])
  {
    hide UnicodeEscape;
  }

  lemma UnicodeStep(hex: seq<char>, after: seq<char>, cur: seq<char>, parts: seq<StrPart>, problems: seq<Message>)
    requires AllHex(hex) && FromHex(hex).Some?
    ensures LexString(['\\', 'u', '{'] + hex + ['}'] + after, cur, parts, problems) ==
              LexString(after, cur + [FromHex(hex).value], parts, problems)
  {
    hide *;
    var s := ['\\', 'u', '{'] + hex + ['}'] + after;
    var tail := ['{'] + (hex + (['}'] + after));
    assert s == ['\\'] + (['u'] + tail);
    SlashStep(s, cur, parts, problems);
    assert s[1..] == ['u'] + tail && s[1..][1..] == tail;
    UnicodeRead(hex, after);
    EscapeOfUnicode(s[1..]);
    assert problems + [] == problems;
  }

  lemma EscapeOfUnicode(s: seq<char>)
    requires s != [] && s[0] == 'u'
    ensures StringEscape(s) == UnicodeEscape(s[1..])
  {
    hide UnicodeEscape;
  }

  lemma InterpolatedStep(chunks: seq<Chunk>, after: seq<char>, cur: seq<char>, parts: seq<StrPart>,
                         problems: seq<Message>)
    requires Meant(chunks)
    ensures LexString(['{'] + (ChunksText(chunks) + ['}']) + after, cur, parts, problems) ==
              LexString(after, [], Flushed(parts, cur) + [Expr(ChunksText(chunks))], problems)
  {
    var text := ChunksText(chunks);
    var s := ['{'] + (text + ['}']) + after;
    LexStringStep(s, cur, parts, problems);
    assert s[1..] == text + (['}'] + after);
    InterpolationEndsExactly(s[1..], text, after);
    hide LexString, Collect, ChunksText, Meant;
    assert problems + [] == problems;
  }

  /** A legal piece is read whole. */
  lemma PieceRead(p: StrPiece, after: seq<char>, cur: seq<char>, parts: seq<StrPart>, problems: seq<Message>)
    requires Legal(p)
    ensures LexString(PieceText(p) + after, cur, parts, problems) ==
              LexString(after, CurAfter(p, cur), PartsAfter(p, cur, parts), problems)
  {
    hide LexString, ChunksText, FromHex, Meant, SimpleEscape, AllHex, Flushed;
    match p
    case Bare(c) =>
      LexStringStep([c] + after, cur, parts, problems);
      assert ([c] + after)[1..] == after;
    case Slash(c) => SlashRead(c, after, cur, parts, problems);
    case Unicode(hex) => UnicodeStep(hex, after, cur, parts, problems);
    case Interpolated(chunks) => InterpolatedStep(chunks, after, cur, parts, problems);
  }

  /** A string written with legal pieces ends at its quote, with the parts the pieces stand for. */
  lemma {:induction false} StringReads(ps: seq<StrPiece>, rest: seq<char>, cur: seq<char>, parts: seq<StrPart>,
                                       problems: seq<Message>)
    requires AllLegal(ps)
    ensures LexString(Spelled(ps) + (['"'] + rest), cur, parts, problems) ==
              Scanned(Denoted(ps, cur, parts), rest, problems)
    decreases |ps|
  {
    if ps == [] {
      assert Spelled(ps) + (['"'] + rest) == ['"'] + rest;
      LexStringStep(['"'] + rest, cur, parts, problems);
      assert (['"'] + rest)[1..] == rest;
      hide LexString, Finished;
    } else {
      var p, tail := ps[0], ps[1..];
      assert ps == [p] + tail;
      DenotedStep(p, tail, cur, parts);
      hide *;
      var after := Spelled(tail) + (['"'] + rest);
      StringReads(tail, rest, CurAfter(p, cur), PartsAfter(p, cur, parts), problems);
      PieceRead(p, after, cur, parts, problems);
      Regroup(PieceText(p), Spelled(tail), ['"'] + rest);
    }
  }

  /** Nothing that was reported is taken back. */
  lemma {:induction false} ReportsStay(s: seq<char>, cur: seq<char>, parts: seq<StrPart>, problems: seq<Message>)
    ensures problems <= LexString(s, cur, parts, problems).problems
    decreases |s|
  {
    LexStringStep(s, cur, parts, problems);
    hide LexString, StringEscape, Collect, Finished, Flushed, Complaint;
    if s != [] && s[0] != '"' {
      if s[0] == '\\' {
        if |s| > 1 {
          var e := StringEscape(s[1..]);
          ReportsStay(e.rest, cur + e.added, parts, problems + e.problems);
        }
      } else if s[0] == '{' {
        var c := Collect(s[1..], 1);
        CollectSuffix(s[1..], 1);
        ReportsStay(AfterCollected(c), [], Flushed(parts, cur) + [Expr(c.text)], problems + Complaint(c));
      } else {
        ReportsStay(s[1..], cur + [s[0]], parts, problems);
      }
    }
  }

  lemma NoMore(problems: seq<Message>, more: seq<Message>)
    requires problems + more <= problems
    ensures more == []
  {
    assert |problems + more| <= |problems|;
  }

  /** An escape without complaint, and with text behind it, is a legal piece. */
  lemma EscapeWasLegal(s: seq<char>) returns (p: StrPiece)
    requires s != [] && StringEscape(s).problems == [] && StringEscape(s).rest != []
    ensures Legal(p) && (p.Slash? || p.Unicode?) && ['\\'] + s == PieceText(p) + StringEscape(s).rest
  {
    hide *;
    if s[0] == 'u' {
      EscapeOfUnicode(s);
      p := UnicodePiece(s[1..]);
      assert s == ['u'] + s[1..];
    } else {
      SimpleWasKnown(s);
      p := Slash(s[0]);
      assert s == [s[0]] + s[1..];
      assert ['\\'] + s == ['\\', s[0]] + s[1..];
    }
  }

  lemma UnicodePiece(t: seq<char>) returns (p: StrPiece)
    requires UnicodeEscape(t).problems == [] && UnicodeEscape(t).rest != []
    ensures Legal(p) && p.Unicode? && ['\\'] + (['u'] + t) == PieceText(p) + UnicodeEscape(t).rest
  {
    hide UnicodeEscape, FromHex, HexRun;
    UnicodeWasClosed(t);
    var hex, rest := HexRun(t[1..]), UnicodeEscape(t).rest;
    p := Unicode(hex);
    assert ['\\', 'u', '{'] + hex + ['}'] + rest == ['\\'] + (['u'] + (['{'] + (hex + (['}'] + rest))));
  }

  lemma SimpleWasKnown(s: seq<char>)
    requires s != [] && s[0] != 'u' && StringEscape(s).problems == []
    ensures Legal(Slash(s[0])) && PieceText(Slash(s[0])) == ['\\', s[0]] && StringEscape(s).rest == s[1..]
  {
    hide UnicodeEscape, SimpleEscape;
  }

  lemma UnicodeWasClosed(t: seq<char>)
    requires UnicodeEscape(t).problems == [] && UnicodeEscape(t).rest != []
    ensures t != []
    ensures var hex := HexRun(t[1..]);
            FromHex(hex).Some? && t == ['{'] + (hex + (['}'] + UnicodeEscape(t).rest))
  {
    hide FromHex, HexValue, IsHexDigit;
    var hex := HexRun(t[1..]);
    var n := 1 + |hex|;
    hide HexRun;
    assert n < |t| && t[n] == '}';
    var after := t[n + 1..];
    assert t[1..][..|hex|] == hex;
    assert t == [t[0]] + (t[1..n] + ([t[n]] + after)) && t[1..n] == hex;
  }

  /** Whatever is read without complaint was written with legal pieces. */
  lemma {:induction false} StringWasSpelled(s: seq<char>, cur: seq<char>, parts: seq<StrPart>, problems: seq<Message>)
    returns (ps: seq<StrPiece>)
    requires LexString(s, cur, parts, problems).problems == problems
    ensures AllLegal(ps) && s == Spelled(ps) + (['"'] + LexString(s, cur, parts, problems).rest)
    decreases |s|
  {
    hide *;
    LexStringStep(s, cur, parts, problems);
    var r := LexString(s, cur, parts, problems);
    if s != [] && s[0] == '"' {
      ps := [];
      NothingSpelled();
      assert s == [] + (['"'] + s[1..]);
    } else {
      var p, after, cur1, parts1 := FirstPiece(s, cur, parts, problems);
      var tail := StringWasSpelled(after, cur1, parts1, problems);
      ps := [p] + tail;
      DenotedStep(p, tail, cur1, parts1);
      Regroup(PieceText(p), Spelled(tail), ['"'] + r.rest);
    }
  }

  lemma NothingSpelled()
    ensures Spelled([]) == [] && AllLegal([])
  {
  }

  lemma ReportsOnce(problems: seq<Message>, m: Message)
    ensures problems + [m] != problems
  {
    assert |problems + [m]| == |problems| + 1;
  }

  /** The first piece of a string that is read without complaint. */
  lemma FirstPiece(s: seq<char>, cur: seq<char>, parts: seq<StrPart>, problems: seq<Message>)
    returns (p: StrPiece, after: seq<char>, cur1: seq<char>, parts1: seq<StrPart>)
    requires LexString(s, cur, parts, problems).problems == problems && (s != [] ==> s[0] != '"')
    ensures Legal(p) && s == PieceText(p) + after && |after| < |s|
    ensures LexString(s, cur, parts, problems) == LexString(after, cur1, parts1, problems)
  {
    hide *;
    LexStringStep(s, cur, parts, problems);
    ReportsOnce(problems, UnterminatedLiteral);
    ReportsOnce(problems, UnterminatedEscape);
    if s[0] == '\\' {
      p, after, cur1, parts1 := FirstEscape(s, cur, parts, problems);
    } else if s[0] == '{' {
      p, after, cur1, parts1 := FirstInterpolation(s, cur, parts, problems);
    } else {
      p, after, cur1, parts1 := Bare(s[0]), s[1..], cur + [s[0]], parts;
      BareLegal(s[0], s[1..]);
      assert s == [s[0]] + s[1..];
    }
  }

  lemma BareLegal(c: char, after: seq<char>)
    requires c !in {'"', '\\', '{'}
    ensures Legal(Bare(c)) && PieceText(Bare(c)) == [c]
  {
  }

  lemma FirstEscape(s: seq<char>, cur: seq<char>, parts: seq<StrPart>, problems: seq<Message>)
    returns (p: StrPiece, after: seq<char>, cur1: seq<char>, parts1: seq<StrPart>)
    requires |s| > 1 && s[0] == '\\' && LexString(s, cur, parts, problems).problems == problems
    ensures Legal(p) && s == PieceText(p) + after && |after| < |s|
    ensures LexString(s, cur, parts, problems) == LexString(after, cur1, parts1, problems)
  {
    hide *;
    SlashStep(s, cur, parts, problems);
    var e := StringEscape(s[1..]);
    ReportsStay(e.rest, cur + e.added, parts, problems + e.problems);
    NoMore(problems, e.problems);
    assert problems + [] == problems;
    LexStringStep(e.rest, cur + e.added, parts, problems);
    ReportsOnce(problems, UnterminatedLiteral);
    p := EscapeWasLegal(s[1..]);
    assert s == ['\\'] + s[1..];
    after, cur1, parts1 := e.rest, cur + e.added, parts;
  }

  lemma FirstInterpolation(s: seq<char>, cur: seq<char>, parts: seq<StrPart>, problems: seq<Message>)
    returns (p: StrPiece, after: seq<char>, cur1: seq<char>, parts1: seq<StrPart>)
    requires s != [] && s[0] == '{' && LexString(s, cur, parts, problems).problems == problems
    ensures Legal(p) && s == PieceText(p) + after && |after| < |s|
    ensures LexString(s, cur, parts, problems) == LexString(after, cur1, parts1, problems)
  {
    hide *;
    LexStringStep(s, cur, parts, problems);
    var c := Collect(s[1..], 1);
    cur1, parts1 := [], Flushed(parts, cur) + [Expr(c.text)];
    ReportsStay(AfterCollected(c), cur1, parts1, problems + Complaint(c));
    NoMore(problems, Complaint(c));
    assert problems + [] == problems;
    NoComplaint(c);
    after := AfterCollected(c);
    InterpolationEndsExactly(s[1..], c.text, after);
    var cs :| Meant(cs) && c.text == ChunksText(cs) && s[1..] == c.text + (['}'] + after);
    p := Interpolated(cs);
    InterpolatedLegal(cs);
    assert s == ['{'] + s[1..];
    Regroup(c.text, ['}'], after);
    Regroup(['{'], c.text + ['}'], after);
  }

  lemma NoComplaint(c: Collected)
    requires Complaint(c) == []
    ensures c == Collected(c.text, Ended(AfterCollected(c)))
  {
  }

  lemma InterpolatedLegal(cs: seq<Chunk>)
    requires Meant(cs)
    ensures Legal(Interpolated(cs)) && PieceText(Interpolated(cs)) == ['{'] + (ChunksText(cs) + ['}'])
  {
  }

  /**
   A string whose opening quote was read ends without complaint, leaving `rest`
   and denoting `parts`, exactly when the text splits into legal pieces that
   stand for `parts`, the closing quote and `rest`.
   */
  lemma StringEndsExactly(s: seq<char>, parts: seq<StrPart>, rest: seq<char>)
    ensures LexString(s, [], [], []) == Scanned(parts, rest, []) <==>
              exists ps: seq<StrPiece> ::
                AllLegal(ps) && s == Spelled(ps) + (['"'] + rest) && parts == Denoted(ps, [], [])
  {
    hide LexString, AllLegal, Spelled, Denoted;
    if LexString(s, [], [], []) == Scanned(parts, rest, []) {
      var ps := StringWasSpelled(s, [], [], []);
      StringReads(ps, rest, [], [], []);
    }
    forall ps: seq<StrPiece> | AllLegal(ps) && s == Spelled(ps) + (['"'] + rest) && parts == Denoted(ps, [], [])
      ensures LexString(s, [], [], []) == Scanned(parts, rest, [])
    {
      StringReads(ps, rest, [], [], []);
    }
  }
}

/**
 Where nested constructs of the source text end (`src/lexer/mod.rs`): block
 comments that nest, and interpolations inside strings, with string literals
 and braces inside them.
 */
module Delimiters {
  import opened Values

  // ----- block comments -----

  predicate Begins(s: seq<char>, a: char, b: char) {
    |s| >= 2 && s[0] == a && s[1] == b
  }

  /** What follows a comment `depth` levels deep, if it is closed. */
  function SkipComment(s: seq<char>, depth: nat): Option<seq<char>>
    requires depth > 0
    decreases |s|
  {
    if s == [] then None
    else if Begins(s, '/', '*') then SkipComment(s[2..], depth + 1)
    else if Begins(s, '*', '/') then
      if depth == 1 then Some(s[2..]) else SkipComment(s[2..], depth - 1)
    else SkipComment(s[1..], depth)
  }

  /** The inside of a comment: characters and whole comments. */
  datatype Piece = Plain(c: char) | Nested(body: seq<Piece>)

  function Text(ps: seq<Piece>): seq<char>
    decreases ps
  {
    if ps == [] then []
    else
      (match ps[0]
       case Plain(c) => [c]
       case Nested(body) => ['/', '*'] + (Text(body) + ['*', '/'])) + Text(ps[1..])
  }

  /** No two characters in the text, its closing delimiter included, read as a delimiter that is not meant. */
  predicate Clean(ps: seq<Piece>)
    decreases ps
  {
    ps != [] ==>
      && Clean(ps[1..])
      && match ps[0]
         case Plain(c) =>
           var next := [c] + (Text(ps[1..]) + ['*', '/']);
           !Begins(next, '/', '*') && !Begins(next, '*', '/')
         case Nested(body) => Clean(body)
  }

  // ----- interpolations -----

  /**
   A string literal whose opening quote was read: its text with the closing quote, and what follows if it is closed.
   */
  function SkipString(s: seq<char>): (r: (seq<char>, Option<seq<char>>))
    ensures r.1.Some? ==> |r.1.value| < |s|
    decreases |s|
  {
    if s == [] then ([], None)
    else if s[0] == '"' then ([s[0]], Some(s[1..]))
    else
      var n := if s[0] == '\\' && |s| >= 2 then 2 else 1;
      var r := SkipString(s[n..]);
      (s[..n] + r.0, r.1)
  }

  /** How an interpolation ends: at its closing brace, or at the end of the text (perhaps inside a string literal). */
  datatype End = Ended(rest: seq<char>) | Missing(inString: bool)

  datatype Collected = Collected(text: seq<char>, end: End)

  /** The text of an interpolation that is `depth` braces deep. */
  function Collect(s: seq<char>, depth: nat): Collected
    requires depth > 0
    decreases |s|
  {
    if s == [] then Collected([], Missing(false))
    else if s[0] == '"' then
      var str := SkipString(s[1..]);
      if str.1.None? then Collected([s[0]] + str.0, Missing(true))
      else Behind([s[0]] + str.0, Collect(str.1.value, depth))
    else if s[0] == '}' && depth == 1 then Collected([], Ended(s[1..]))
    else
      Behind([s[0]], Collect(s[1..], if s[0] == '{' then depth + 1 else if s[0] == '}' then depth - 1 else depth))
  }

  /** `text`, and then what was collected. */
  function Behind(text: seq<char>, r: Collected): Collected {
    r.(text := text + r.text)
  }

  /** A character of a string literal, escaped or not. */
  datatype Unit = Raw(c: char) | Escaped(c: char)

  /** The inside of an interpolation: characters, string literals and brace groups. */
  datatype Chunk = Char(c: char) | Quoted(units: seq<Unit>) | Group(body: seq<Chunk>)

  function UnitsText(us: seq<Unit>): seq<char> {
    if us == [] then [] else (match us[0] case Raw(c) => [c] case Escaped(c) => ['\\', c]) + UnitsText(us[1..])
  }

  function ChunksText(cs: seq<Chunk>): seq<char>
    decreases cs
  {
    if cs == [] then []
    else
      (match cs[0]
       case Char(c) => [c]
       case Quoted(us) => ['"'] + (UnitsText(us) + ['"'])
       case Group(body) => ['{'] + (ChunksText(body) + ['}'])) + ChunksText(cs[1..])
  }

  predicate Meant(cs: seq<Chunk>)
    decreases cs
  {
    forall i :: 0 <= i < |cs| ==>
      match cs[i]
      case Char(c) => c !in {'"', '{', '}'}
      case Quoted(us) => UnitsMeant(us)
      case Group(body) => Meant(body)
  }

  // ----- a comment ends where its nesting does -----

  const CLOSE := ['*', '/']

  lemma Regroup(a: seq<char>, b: seq<char>, c: seq<char>)
    ensures a + (b + c) == (a + b) + c
  {
  }

  lemma SkipStep(s: seq<char>, depth: nat)
    requires depth > 0 && s != []
    ensures SkipComment(s, depth) ==
              if Begins(s, '/', '*') then SkipComment(s[2..], depth + 1)
              else if Begins(s, '*', '/') then (if depth == 1 then Some(s[2..]) else SkipComment(s[2..], depth - 1))
              else SkipComment(s[1..], depth)
  {
  }

  lemma SkipPlain(c: char, ps: seq<Piece>, rest: seq<char>, depth: nat)
    requires depth > 0
    requires var next := [c] + (Text(ps) + CLOSE); !Begins(next, '/', '*') && !Begins(next, '*', '/')
    ensures Text([Plain(c)] + ps) + (CLOSE + rest) == [c] + (Text(ps) + (CLOSE + rest))
    ensures SkipComment([c] + (Text(ps) + (CLOSE + rest)), depth) == SkipComment(Text(ps) + (CLOSE + rest), depth)
  {
    PlainText(c, ps);
    hide Text, SkipComment;
    var tail := Text(ps) + (CLOSE + rest);
    var s, next := [c] + tail, [c] + (Text(ps) + CLOSE);
    Regroup([c], Text(ps), CLOSE + rest);
    Regroup(Text(ps), CLOSE, rest);
    Regroup([c], Text(ps) + CLOSE, rest);
    SameStart(next, rest);
    assert s[1..] == tail;
    SkipStep(s, depth);
  }

  lemma PlainText(c: char, ps: seq<Piece>)
    ensures Text([Plain(c)] + ps) == [c] + Text(ps)
  {
    assert ([Plain(c)] + ps)[1..] == ps;
  }

  lemma SameStart(s: seq<char>, more: seq<char>)
    requires |s| >= 2
    ensures (s + more)[0] == s[0] && (s + more)[1] == s[1]
  {
  }

  lemma OpensNested(body: seq<Piece>, ps: seq<Piece>, rest: seq<char>, depth: nat)
    requires depth > 0
    ensures var tail := Text(ps) + (CLOSE + rest);
            var inner := Text(body) + (CLOSE + tail);
            && Text([Nested(body)] + ps) + (CLOSE + rest) == ['/', '*'] + inner
            && SkipComment(['/', '*'] + inner, depth) == SkipComment(inner, depth + 1)
  {
    var tail := Text(ps) + (CLOSE + rest);
    var inner := Text(body) + (CLOSE + tail);
    SkipStep(['/', '*'] + inner, depth);
    NestedText(body, ps);
    hide SkipComment, Text;
    assert (['/', '*'] + inner)[2..] == inner;
    Regroup(['/', '*'], Text(body) + CLOSE, tail);
    Regroup(Text(body), CLOSE, tail);
    Regroup(['/', '*'] + (Text(body) + CLOSE), Text(ps), CLOSE + rest);
  }

  lemma NestedText(body: seq<Piece>, ps: seq<Piece>)
    ensures Text([Nested(body)] + ps) == (['/', '*'] + (Text(body) + CLOSE)) + Text(ps)
  {
    assert ([Nested(body)] + ps)[1..] == ps;
  }

  lemma ClosesHere(rest: seq<char>, depth: nat)
    requires depth > 0
    ensures SkipComment(CLOSE + rest, depth) == if depth == 1 then Some(rest) else SkipComment(rest, depth - 1)
  {
    SkipStep(CLOSE + rest, depth);
    assert (CLOSE + rest)[2..] == rest;
    hide SkipComment;
  }

  /** After well-nested text and the closing delimiter, one level less. */
  lemma {:induction false} CommentCloses(ps: seq<Piece>, rest: seq<char>, depth: nat)
    requires Clean(ps) && depth > 0
    ensures SkipComment(Text(ps) + (CLOSE + rest), depth) ==
              if depth == 1 then Some(rest) else SkipComment(rest, depth - 1)
    decreases ps
  {
    ClosesHere(rest, depth);
    if ps == [] {
      assert Text(ps) + (CLOSE + rest) == CLOSE + rest;
      hide SkipComment;
    } else {
      hide SkipComment, Text;
      assert ps == [ps[0]] + ps[1..];
      CommentCloses(ps[1..], rest, depth);
      match ps[0]
      case Plain(c) => SkipPlain(c, ps[1..], rest, depth);
      case Nested(body) =>
        OpensNested(body, ps[1..], rest, depth);
        CommentCloses(body, Text(ps[1..]) + (CLOSE + rest), depth + 1);
    }
  }

  /** Whatever is skipped was well nested. */
  lemma {:induction false} CommentWasNested(s: seq<char>, depth: nat) returns (ps: seq<Piece>, rest: seq<char>)
    requires depth > 0 && SkipComment(s, depth).Some?
    ensures Clean(ps) && s == Text(ps) + (CLOSE + rest)
    ensures SkipComment(s, depth) == if depth == 1 then Some(rest) else SkipComment(rest, depth - 1)
    decreases |s|
  {
    SkipStep(s, depth);
    hide SkipComment, Text;
    if Begins(s, '/', '*') {
      var body, after := CommentWasNested(s[2..], depth + 1);
      var tail;
      tail, rest := CommentWasNested(after, depth);
      ps := [Nested(body)] + tail;
      OpensNested(body, tail, rest, depth);
      assert ps[1..] == tail && s == ['/', '*'] + s[2..];
    } else if Begins(s, '*', '/') {
      ps, rest := [], s[2..];
      NoText();
      assert s == CLOSE + s[2..];
    } else {
      var tail;
      tail, rest := CommentWasNested(s[1..], depth);
      ps := [Plain(s[0])] + tail;
      var next := [s[0]] + (Text(tail) + CLOSE);
      assert ps[1..] == tail && s == [s[0]] + s[1..];
      assert s == next + rest;
      SkipPlain(s[0], tail, rest, depth);
    }
  }

  lemma NoText()
    ensures Text([]) == []
  {
  }

  /**
   A comment whose opening delimiter was read ends, leaving `rest`, exactly when
   the text splits into well-nested text, a closing delimiter and `rest`.
   */
  lemma CommentEndsExactly(s: seq<char>, rest: seq<char>)
    ensures SkipComment(s, 1) == Some(rest) <==> exists ps :: Clean(ps) && s == Text(ps) + (CLOSE + rest)
  {
    hide SkipComment, Clean, Text;
    if SkipComment(s, 1) == Some(rest) {
      var ps, after := CommentWasNested(s, 1);
    }
    forall ps | Clean(ps) && s == Text(ps) + (CLOSE + rest)
      ensures SkipComment(s, 1) == Some(rest)
    {
      CommentCloses(ps, rest, 1);
    }
  }

  // ----- an interpolation ends where its braces do -----

  lemma {:induction false} StringCloses(us: seq<Unit>, rest: seq<char>)
    requires UnitsMeant(us)
    ensures SkipString(UnitsText(us) + (['"'] + rest)) == (UnitsText(us) + ['"'], Some(rest))
  {
    var close := ['"'] + rest;
    if us == [] {
      assert UnitsText(us) == [] && [] + close == close && [] + ['"'] == ['"'];
      assert close[0] == '"' && close[1..] == rest;
    } else {
      assert us == [us[0]] + us[1..];
      StringCloses(us[1..], rest);
      UnitSkipped(us[0], us[1..], rest);
    }
  }

  lemma UnitSkipped(u: Unit, us: seq<Unit>, rest: seq<char>)
    requires u.Raw? ==> u.c !in {'"', '\\'}
    requires SkipString(UnitsText(us) + (['"'] + rest)) == (UnitsText(us) + ['"'], Some(rest))
    ensures SkipString(UnitsText([u] + us) + (['"'] + rest)) == (UnitsText([u] + us) + ['"'], Some(rest))
  {
    var head := if u.Raw? then [u.c] else ['\\', u.c];
    var text := UnitsText(us);
    var tail := text + (['"'] + rest);
    assert ([u] + us)[1..] == us && UnitsText([u] + us) == head + text;
    var s := head + tail;
    assert s[|head|..] == tail && s[..|head|] == head;
    assert SkipString(s) == (head + SkipString(tail).0, SkipString(tail).1);
    hide SkipString, UnitsText;
    Regroup(head, text, ['"'] + rest);
    Regroup(head, text, ['"']);
  }

  predicate UnitsMeant(us: seq<Unit>) {
    forall j :: 0 <= j < |us| && us[j].Raw? ==> us[j].c !in {'"', '\\'}
  }

  /** Whatever is skipped and closed was a string literal. */
  lemma {:induction false} StringWasClosed(s: seq<char>) returns (us: seq<Unit>)
    requires SkipString(s).1.Some?
    ensures UnitsMeant(us) && s == UnitsText(us) + (['"'] + SkipString(s).1.value)
    decreases |s|
  {
    if s[0] == '"' {
      us := [];
      assert UnitsText(us) == [];
      hide SkipString, UnitsText;
      assert s == [] + (['"'] + s[1..]);
    } else {
      var n := if s[0] == '\\' && |s| >= 2 then 2 else 1;
      var more := s[n..];
      assert more != [];
      var tail := StringWasClosed(more);
      us := [if n == 2 then Escaped(s[1]) else Raw(s[0])] + tail;
      assert us[1..] == tail && UnitsText(us) == s[..n] + UnitsText(tail);
      hide SkipString, UnitsText;
      Regroup(s[..n], UnitsText(tail), ['"'] + SkipString(s).1.value);
      assert s == s[..n] + s[n..];
      assert forall j :: 0 < j < |us| ==> us[j] == tail[j - 1];
    }
  }

  lemma CollectStep(s: seq<char>, depth: nat)
    requires depth > 0 && s != []
    ensures Collect(s, depth) ==
              if s[0] == '"' then
                var str := SkipString(s[1..]);
                if str.1.None? then Collected([s[0]] + str.0, Missing(true))
                else Behind([s[0]] + str.0, Collect(str.1.value, depth))
              else if s[0] == '}' && depth == 1 then Collected([], Ended(s[1..]))
              else
                Behind([s[0]],
                       Collect(s[1..], if s[0] == '{' then depth + 1 else if s[0] == '}' then depth - 1 else depth))
  {
    hide SkipString;
  }

  /** After the closing brace: done, or one level less. */
  function Closed(rest: seq<char>, depth: nat): Collected
    requires depth > 0
  {
    if depth == 1 then Collected([], Ended(rest)) else Behind(['}'], Collect(rest, depth - 1))
  }

  lemma BehindBehind(a: seq<char>, b: seq<char>, r: Collected)
    ensures Behind(a, Behind(b, r)) == Behind(a + b, r)
  {
    Regroup(a, b, r.text);
  }

  function ChunkText(c: Chunk): seq<char> {
    match c
    case Char(ch) => [ch]
    case Quoted(us) => ['"'] + (UnitsText(us) + ['"'])
    case Group(body) => ['{'] + (ChunksText(body) + ['}'])
  }

  lemma ChunksSplit(c: Chunk, cs: seq<Chunk>, after: seq<char>)
    ensures ChunksText([c] + cs) == ChunkText(c) + ChunksText(cs)
    ensures ChunksText([c] + cs) + after == ChunkText(c) + (ChunksText(cs) + after)
  {
    assert ([c] + cs)[1..] == cs;
    hide UnitsText;
  }

  /** One character that is neither quote nor brace. */
  lemma CollectChar(c: char, s: seq<char>, depth: nat)
    requires depth > 0 && c !in {'"', '{', '}'}
    ensures Collect([c] + s, depth) == Behind([c], Collect(s, depth))
  {
    CollectStep([c] + s, depth);
    assert ([c] + s)[1..] == s;
    hide Collect;
  }

  /** A whole string literal. */
  lemma CollectQuoted(us: seq<Unit>, s: seq<char>, depth: nat)
    requires depth > 0 && UnitsMeant(us)
    ensures Collect(ChunkText(Quoted(us)) + s, depth) == Behind(ChunkText(Quoted(us)), Collect(s, depth))
  {
    var text := ChunkText(Quoted(us)) + s;
    var inner := UnitsText(us) + (['"'] + s);
    assert text == ['"'] + inner && text[1..] == inner;
    CollectStep(text, depth);
    StringCloses(us, s);
    hide Collect, SkipString, UnitsText;
    Regroup(['"'], UnitsText(us) + ['"'], Collect(s, depth).text);
  }

  /** The brace that ends a level. */
  lemma CollectClose(rest: seq<char>, depth: nat)
    requires depth > 0
    ensures Collect(['}'] + rest, depth) == Closed(rest, depth)
  {
    CollectStep(['}'] + rest, depth);
    assert (['}'] + rest)[1..] == rest;
    hide Collect;
  }

  lemma CollectOpen(s: seq<char>, depth: nat)
    requires depth > 0
    ensures Collect(['{'] + s, depth) == Behind(['{'], Collect(s, depth + 1))
  {
    CollectStep(['{'] + s, depth);
    assert (['{'] + s)[1..] == s;
    hide Collect;
  }

  /** Balanced text and the closing brace: the text is collected, and one level is left. */
  lemma {:induction false} InterpolationCloses(cs: seq<Chunk>, rest: seq<char>, depth: nat)
    requires Meant(cs) && depth > 0
    ensures Collect(ChunksText(cs) + (['}'] + rest), depth) == Behind(ChunksText(cs), Closed(rest, depth))
    decreases cs
  {
    CollectClose(rest, depth);
    if cs == [] {
      assert ChunksText(cs) + (['}'] + rest) == ['}'] + rest;
      hide Collect, Closed;
      assert [] + Closed(rest, depth).text == Closed(rest, depth).text;
    } else {
      var c, tail := cs[0], cs[1..];
      var after := ChunksText(tail) + (['}'] + rest);
      assert Meant(tail) && cs == [c] + tail;
      InterpolationCloses(tail, rest, depth);
      ChunksSplit(c, tail, ['}'] + rest);
      hide Collect, Closed, Meant, ChunksText, Behind;
      ChunkCollected(c, after, depth);
      BehindBehind(ChunkText(c), ChunksText(tail), Closed(rest, depth));
    }
  }

  /** One chunk is collected whole. */
  lemma {:induction false} ChunkCollected(c: Chunk, after: seq<char>, depth: nat)
    requires Meant([c]) && depth > 0
    ensures Collect(ChunkText(c) + after, depth) == Behind(ChunkText(c), Collect(after, depth))
    decreases c
  {
    assert [c][0] == c;
    match c
    case Char(ch) => CollectChar(ch, after, depth);
    case Quoted(us) => CollectQuoted(us, after, depth);
    case Group(body) =>
      var inner := ChunksText(body) + (['}'] + after);
      GroupLayout(body, after);
      CollectOpen(inner, depth);
      InterpolationCloses(body, after, depth + 1);
      hide Collect, Meant, ChunksText, Behind;
      BehindBehind(['{'], ChunksText(body), Closed(after, depth + 1));
      GroupEnds(body, after, depth);
  }

  lemma GroupLayout(body: seq<Chunk>, after: seq<char>)
    ensures ChunkText(Group(body)) + after == ['{'] + (ChunksText(body) + (['}'] + after))
  {
    hide ChunksText;
  }

  lemma GroupEnds(body: seq<Chunk>, after: seq<char>, depth: nat)
    requires depth > 0
    ensures Behind(['{'] + ChunksText(body), Closed(after, depth + 1)) ==
              Behind(ChunkText(Group(body)), Collect(after, depth))
  {
    hide ChunksText, Collect;
    var r := Collect(after, depth);
    assert ['{'] + ChunksText(body) + (['}'] + r.text) == ['{'] + (ChunksText(body) + ['}']) + r.text;
  }

  /** Whatever is collected and closed was balanced. */
  lemma {:induction false} CollectedWasBalanced(s: seq<char>, depth: nat) returns (cs: seq<Chunk>, rest: seq<char>)
    requires depth > 0 && Collect(s, depth).end.Ended?
    ensures Meant(cs) && s == ChunksText(cs) + (['}'] + rest)
    decreases |s|
  {
    CollectStep(s, depth);
    hide Collect, SkipString, ChunksText, Meant;
    if s[0] == '}' {
      cs, rest := [], s[1..];
      NoChunks();
      assert s == [] + (['}'] + s[1..]);
    } else {
      var c, after := FirstChunk(s, depth);
      var tail;
      tail, rest := CollectedWasBalanced(after, depth);
      cs := [c] + tail;
      ChunksSplit(c, tail, ['}'] + rest);
      MeantSplit(c, tail);
    }
  }

  /** The first chunk of an interpolation that is closed. */
  lemma {:induction false} FirstChunk(s: seq<char>, depth: nat) returns (c: Chunk, after: seq<char>)
    requires depth > 0 && s != [] && s[0] != '}' && Collect(s, depth).end.Ended?
    ensures Meant([c]) && s == ChunkText(c) + after && |after| < |s| && Collect(after, depth).end.Ended?
    decreases |s|, 0
  {
    CollectStep(s, depth);
    hide Collect, SkipString, ChunksText;
    if s[0] == '"' {
      var us := StringWasClosed(s[1..]);
      c, after := Quoted(us), SkipString(s[1..]).1.value;
      Regroup(['"'], UnitsText(us) + ['"'], after);
      Regroup(UnitsText(us), ['"'], after);
      assert s == ['"'] + s[1..];
    } else if s[0] == '{' {
      var body;
      body, after := CollectedWasBalanced(s[1..], depth + 1);
      c := Group(body);
      InterpolationCloses(body, after, depth + 1);
      GroupLayout(body, after);
      assert s == ['{'] + s[1..];
    } else {
      c, after := Char(s[0]), s[1..];
    }
  }

  lemma NoChunks()
    ensures ChunksText([]) == [] && Meant([])
  {
  }

  lemma MeantSplit(c: Chunk, cs: seq<Chunk>)
    requires Meant([c]) && Meant(cs)
    ensures Meant([c] + cs)
  {
    assert [c][0] == c;
  }

  /**
   An interpolation whose opening brace was read yields `text` and leaves `rest`
   exactly when the source splits into balanced chunks spelling `text`, the
   closing brace and `rest`.
   */
  lemma InterpolationEndsExactly(s: seq<char>, text: seq<char>, rest: seq<char>)
    ensures Collect(s, 1) == Collected(text, Ended(rest)) <==>
              exists cs :: Meant(cs) && text == ChunksText(cs) && s == text + (['}'] + rest)
  {
    hide Collect, Meant, ChunksText;
    if Collect(s, 1) == Collected(text, Ended(rest)) {
      var cs, after := CollectedWasBalanced(s, 1);
      InterpolationCloses(cs, after, 1);
      assert ChunksText(cs) + [] == ChunksText(cs);
    }
    forall cs | Meant(cs) && text == ChunksText(cs) && s == text + (['}'] + rest)
      ensures Collect(s, 1) == Collected(text, Ended(rest))
    {
      InterpolationCloses(cs, rest, 1);
      assert ChunksText(cs) + [] == ChunksText(cs);
    }
  }

  lemma {:induction false} SkipCommentShortens(s: seq<char>, depth: nat)
    requires depth > 0 && SkipComment(s, depth).Some?
    ensures |SkipComment(s, depth).value| < |s|
    decreases |s|
  {
    if Begins(s, '/', '*') {
      SkipCommentShortens(s[2..], depth + 1);
    } else if Begins(s, '*', '/') {
      if depth > 1 { SkipCommentShortens(s[2..], depth - 1); }
    } else {
      SkipCommentShortens(s[1..], depth);
    }
  }

  // ----- one step of the loops that skip and collect -----

  function First(s: seq<char>): Option<char> {
    if s == [] then None else Some(s[0])
  }

  /** What a string literal adds to `out`, and what follows it. */
  function Copied(out: seq<char>, s: seq<char>): (seq<char>, Option<seq<char>>) {
    (out + SkipString(s).0, SkipString(s).1)
  }

  lemma CopiesOne(out: seq<char>, s: seq<char>)
    ensures Copied(out, s) ==
              if s == [] then (out, None)
              else if s[0] == '"' then (out + [s[0]], Some(s[1..]))
              else if s[0] == '\\' && |s| >= 2 then Copied((out + [s[0]]) + [s[1]], s[2..])
              else Copied(out + [s[0]], s[1..])
  {
    assert out + [] == out;
    if s != [] && s[0] != '"' {
      var n := if s[0] == '\\' && |s| >= 2 then 2 else 1;
      assert SkipString(s) == (s[..n] + SkipString(s[n..]).0, SkipString(s[n..]).1);
      assert s[..n] == if n == 2 then [s[0]] + [s[1]] else [s[0]];
      hide SkipString;
      Regroup(out, [s[0]], if n == 2 then [s[1]] else []);
      Regroup(out, s[..n], SkipString(s[n..]).0);
    }
  }

  // What collecting one more character does to the text so far.

  lemma BehindNothing(r: Collected)
    ensures Behind([], r) == r
  {
    assert [] + r.text == r.text;
  }

  lemma CollectsEnd(raw: seq<char>, depth: nat)
    requires depth > 0
    ensures Behind(raw, Collect([], depth)) == Collected(raw, Missing(false))
  {
    assert raw + [] == raw;
  }

  lemma CollectsOne(s: seq<char>, raw: seq<char>, depth: nat)
    requires depth > 0 && s != [] && s[0] != '"'
    ensures Behind(raw, Collect(s, depth)) ==
              if s[0] == '}' && depth == 1 then Collected(raw, Ended(s[1..]))
              else
                Behind(raw + [s[0]],
                       Collect(s[1..], if s[0] == '{' then depth + 1 else if s[0] == '}' then depth - 1 else depth))
  {
    CollectStep(s, depth);
    hide Collect;
    assert raw + [] == raw;
    if !(s[0] == '}' && depth == 1) {
      var more := Collect(s[1..], if s[0] == '{' then depth + 1 else if s[0] == '}' then depth - 1 else depth);
      BehindBehind(raw, [s[0]], more);
    }
  }

  lemma CollectsString(s: seq<char>, raw: seq<char>, depth: nat)
    requires depth > 0 && s != [] && s[0] == '"'
    ensures var str := SkipString(s[1..]);
            var out := (raw + [s[0]]) + str.0;
            Behind(raw, Collect(s, depth)) ==
              if str.1.None? then Collected(out, Missing(true)) else Behind(out, Collect(str.1.value, depth))
  {
    CollectStep(s, depth);
    hide Collect, SkipString;
    var str := SkipString(s[1..]);
    Regroup(raw, [s[0]], str.0);
    if str.1.Some? {
      BehindBehind(raw, [s[0]] + str.0, Collect(str.1.value, depth));
    }
  }
}

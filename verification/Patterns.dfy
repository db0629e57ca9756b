/** The pattern language of logger/formatter.cc: its grammar, and the compilation of a pattern into format items. */
module Patterns {
  import opened Options
  import opened DateCache

  /** A pattern read from left to right: plain characters and directives. */
  datatype Piece = Plain(c: char) | Directive(directive: char, argument: string)

  datatype Lexed = Pieces(pieces: seq<Piece>) | Broken(code: int)

  const INCOMPLETE_DIRECTIVE := -1
  const BAD_ARGUMENT := -2
  const UNKNOWN_DIRECTIVE := -3

  /** The first position of `c` at or after `from`, or the length of the text. */
  function Find(s: string, c: char, from: nat): (k: nat)
    requires from <= |s|
    ensures from <= k <= |s| && c !in s[from..k] && (k < |s| ==> s[k] == c)
    decreases |s| - from
  {
    if from == |s| || s[from] == c then from else Find(s, c, from + 1)
  }

  function Then(piece: Piece, rest: Lexed): Lexed {
    if rest.Pieces? then Pieces([piece] + rest.pieces) else rest
  }

  datatype Step = Took(piece: Piece, used: nat) | Stuck(code: int)

  /** The first piece of a pattern and the length of its text, or the code of what is wrong there. */
  function FirstStep(p: string): (step: Step)
    requires p != ""
    ensures step.Took? ==> 0 < step.used <= |p|
  {
    if p[0] != '%' then Took(Plain(p[0]), 1)
    else if |p| == 1 then Stuck(INCOMPLETE_DIRECTIVE)
    else if p[1] == '%' then Took(Plain('%'), 2)
    else if |p| > 2 && p[2] == '{' then
      var closing := Find(p, '}', 3);
      if closing == |p| || closing == 3 then Stuck(BAD_ARGUMENT)
      else Took(Directive(p[1], p[3..closing]), closing + 1)
    else Took(Directive(p[1], ""), 2)
  }

  /** What a pattern means piece by piece, or the code of the first thing wrong with it. */
  function Lex(p: string): Lexed
    decreases |p|
  {
    if p == "" then Pieces([])
    else match FirstStep(p)
      case Stuck(code) => Broken(code)
      case Took(piece, used) => Then(piece, Lex(p[used..]))
  }

  // ---- exactly which pieces a pattern can express

  function UnlexPiece(piece: Piece): string {
    match piece
    case Plain(c) => if c == '%' then "%%" else [c]
    case Directive(d, argument) => if argument == "" then ['%', d] else ['%', d, '{'] + argument + "}"
  }

  function Unlex(pieces: seq<Piece>): string {
    if pieces == [] then "" else UnlexPiece(pieces[0]) + Unlex(pieces[1..])
  }

  /** A directive is not '%', and its argument holds no closing brace. */
  predicate Fit(piece: Piece) {
    piece.Directive? ==> piece.directive != '%' && '}' !in piece.argument
  }

  /** A directive without argument cannot stand before an opening brace. */
  predicate Follows(piece: Piece, rest: string) {
    piece.Directive? && piece.argument == "" && rest != "" ==> rest[0] != '{'
  }

  ghost predicate Expressible(pieces: seq<Piece>) {
    && (forall i :: 0 <= i < |pieces| ==> Fit(pieces[i]))
    && (forall i :: 0 <= i < |pieces| - 1 ==> Follows(pieces[i], UnlexPiece(pieces[i + 1])))
  }

  lemma FindFirst(s: string, c: char, from: nat, k: nat)
    requires from <= k < |s| && s[k] == c && c !in s[from..k]
    ensures Find(s, c, from) == k
  {
    var found := Find(s, c, from);
    forall i | from <= i < k || from <= i < found
      ensures s[i] != c
    {
      if i < k {
        assert s[i] == s[from..k][i - from];
      } else {
        assert s[i] == s[from..found][i - from];
      }
    }
  }

  lemma StepText(p: string)
    requires p != "" && FirstStep(p).Took?
    ensures var step := FirstStep(p);
            p[..step.used] == UnlexPiece(step.piece) && Fit(step.piece) && Follows(step.piece, p[step.used..])
  {
  }

  lemma StepOfPiece(piece: Piece, rest: string)
    requires Fit(piece) && Follows(piece, rest)
    ensures FirstStep(UnlexPiece(piece) + rest) == Took(piece, |UnlexPiece(piece)|)
  {
    if piece.Directive? && piece.argument != "" {
      var p := UnlexPiece(piece) + rest;
      var closing := 3 + |piece.argument|;
      assert p[3..closing] == piece.argument && p[closing] == '}';
      FindFirst(p, '}', 3, closing);
    }
  }

  lemma LexPiece(piece: Piece, rest: string)
    requires Fit(piece) && Follows(piece, rest)
    ensures Lex(UnlexPiece(piece) + rest) == Then(piece, Lex(rest))
  {
    StepOfPiece(piece, rest);
    assert (UnlexPiece(piece) + rest)[|UnlexPiece(piece)|..] == rest;
  }

  /** Lexing can be cut wherever the right part does not begin with an opening brace. */
  lemma {:induction false} LexAppend(p: string, q: string)
    requires Lex(p).Pieces? && (q != "" ==> q[0] != '{')
    ensures Lex(p + q) == if Lex(q).Pieces? then Pieces(Lex(p).pieces + Lex(q).pieces) else Lex(q)
    decreases |p|
  {
    hide FirstStep, UnlexPiece, Fit;
    if p == "" {
      assert p + q == q;
    } else {
      var step := FirstStep(p);
      var rest := p[step.used..];
      StepText(p);
      LexAppend(rest, q);
      AppendStep(step.piece, rest, q, Lex(rest), Lex(q));
      assert p + q == UnlexPiece(step.piece) + (rest + q);
    }
  }

  lemma AppendStep(piece: Piece, rest: string, q: string, first: Lexed, second: Lexed)
    requires Fit(piece) && Follows(piece, rest) && (q != "" ==> q[0] != '{')
    requires first.Pieces?
    requires Lex(rest + q) == if second.Pieces? then Pieces(first.pieces + second.pieces) else second
    ensures Lex(UnlexPiece(piece) + (rest + q))
         == if second.Pieces? then Pieces(Then(piece, first).pieces + second.pieces) else second
  {
    hide Lex, UnlexPiece, Fit;
    LexPiece(piece, rest + q);
    if second.Pieces? {
      assert [piece] + (first.pieces + second.pieces) == [piece] + first.pieces + second.pieces;
    }
  }

  lemma LexNothing()
    ensures Lex("") == Pieces([])
  {
  }

  /** Writing pieces down and lexing them again gives them back, for all the pieces that a pattern can express. */
  lemma {:induction false} LexUnlex(pieces: seq<Piece>)
    requires Expressible(pieces)
    ensures Lex(Unlex(pieces)) == Pieces(pieces)
  {
    hide FirstStep, Fit, Lex;
    if pieces == [] {
      LexNothing();
    } else {
      var tail := pieces[1..];
      assert forall i :: 0 <= i < |tail| ==> tail[i] == pieces[i + 1];
      LexUnlex(tail);
      if tail != [] {
        assert Follows(pieces[0], UnlexPiece(pieces[1]));
        assert Unlex(tail)[0] == UnlexPiece(tail[0])[0];
      }
      LexPiece(pieces[0], Unlex(tail));
    }
  }

  /** Every well-formed pattern is the written form of its pieces, and so no pattern expresses any others. */
  lemma {:induction false} UnlexLex(p: string)
    requires Lex(p).Pieces?
    ensures Expressible(Lex(p).pieces) && Unlex(Lex(p).pieces) == p
    decreases |p|
  {
    hide FirstStep, Expressible, Fit, Follows;
    if p == "" {
      NothingExpressible();
    } else {
      var step := FirstStep(p);
      var rest := p[step.used..];
      StepText(p);
      UnlexLex(rest);
      OnePieceMore(step.piece, Lex(rest).pieces, rest);
    }
  }

  lemma NothingExpressible()
    ensures Expressible([])
  {
  }

  lemma OnePieceMore(piece: Piece, tail: seq<Piece>, rest: string)
    requires Expressible(tail) && Unlex(tail) == rest && Fit(piece) && Follows(piece, rest)
    ensures Expressible([piece] + tail) && Unlex([piece] + tail) == UnlexPiece(piece) + rest
  {
    assert ([piece] + tail)[1..] == tail;
    if tail != [] {
      assert rest[0] == UnlexPiece(tail[0])[0];
    }
  }

  // ---- exactly which patterns are malformed

  /** The text that stops the lexer: a lone percent sign at the end, or an argument that is unclosed or empty. */
  ghost predicate Stops(tail: string, code: int) {
    || (code == -1 && tail == "%")
    || (code == -2 && |tail| > 2 && tail[0] == '%' && tail[1] != '%' && tail[2] == '{'
        && ('}' !in tail[3..] || tail[3] == '}'))
  }

  lemma StopsLexer(tail: string, code: int)
    requires Stops(tail, code)
    ensures Lex(tail) == Broken(code)
  {
    if code == -2 {
      var closing := Find(tail, '}', 3);
      assert closing < |tail| ==> tail[closing] == tail[3..][closing - 3];
    }
  }

  lemma StopsBegin(tail: string, code: int)
    requires Stops(tail, code)
    ensures tail != "" && tail[0] == '%'
  {
  }

  /** A pattern is rejected for its shape iff it is a well-formed pattern followed by such a text. */
  lemma {:induction false} BrokenExactly(p: string, code: int)
    ensures Lex(p) == Broken(code) <==>
            exists cut :: 0 <= cut <= |p| && Lex(p[..cut]).Pieces? && Stops(p[cut..], code)
  {
    hide Lex, Stops;
    if Lex(p) == Broken(code) {
      BrokenHasTail(p, code);
    }
    forall cut | 0 <= cut <= |p| && Lex(p[..cut]).Pieces? && Stops(p[cut..], code)
      ensures Lex(p) == Broken(code)
    {
      StopsLexer(p[cut..], code);
      StopsBegin(p[cut..], code);
      LexAppend(p[..cut], p[cut..]);
      assert p[..cut] + p[cut..] == p;
    }
  }

  lemma {:induction false} BrokenHasTail(p: string, code: int)
    requires Lex(p) == Broken(code)
    ensures exists cut :: 0 <= cut <= |p| && Lex(p[..cut]).Pieces? && Stops(p[cut..], code)
    decreases |p|
  {
    hide FirstStep, UnlexPiece, Stops, Fit, Follows;
    match FirstStep(p) {
      case Stuck(_) =>
        assert p[0..] == p && p[..0] == "";
        StuckStops(p);
      case Took(piece, used) =>
        var rest := p[used..];
        StepText(p);
        BrokenHasTail(rest, code);
        var cut :| 0 <= cut <= |rest| && Lex(rest[..cut]).Pieces? && Stops(rest[cut..], code);
        Shifted(p, piece, used, cut, code);
    }
  }

  lemma Shifted(p: string, piece: Piece, used: nat, cut: nat, code: int)
    requires used + cut <= |p| && p[..used] == UnlexPiece(piece) && Fit(piece) && Follows(piece, p[used..])
    requires Lex(p[used..][..cut]).Pieces? && Stops(p[used..][cut..], code)
    ensures Lex(p[..used + cut]).Pieces? && Stops(p[used + cut..], code)
  {
    hide Lex, Stops;
    var rest := p[used..];
    assert p[..used + cut] == UnlexPiece(piece) + rest[..cut];
    assert p[used + cut..] == rest[cut..];
    LexPiece(piece, rest[..cut]);
  }

  lemma StuckStops(p: string)
    requires p != "" && FirstStep(p).Stuck?
    ensures Stops(p, FirstStep(p).code)
  {
    if |p| > 1 {
      var closing := Find(p, '}', 3);
      if closing == |p| {
        assert p[3..] == p[3..closing];
      }
    }
  }

  // ---- format items

  datatype Item =
    | Literal(text: string)
    | Message | Level | Elapsed | LoggerName | ThreadId | NewLine
    | DateTime(format: string)
    | Microseconds | FileName | Line | Tab | FiberId | ThreadName

  /** The factory table: the item for a directive, or the null pointer for an unknown one. */
  function ItemFor(directive: char, argument: string): Option<Item> {
    match directive
    case 'm' => Some(Message)
    case 'p' => Some(Level)
    case 'r' => Some(Elapsed)
    case 'c' => Some(LoggerName)
    case 't' => Some(ThreadId)
    case 'n' => Some(NewLine)
    case 'd' => Some(DateTime(EffectiveFormat(argument)))
    case 'u' => Some(Microseconds)
    case 'f' => Some(FileName)
    case 'l' => Some(Line)
    case 'T' => Some(Tab)
    case 'F' => Some(FiberId)
    case 'N' => Some(ThreadName)
    case _ => None
  }

  function Flush(literal: string): seq<Option<Item>> {
    if literal == "" then [] else [Some(Literal(literal))]
  }

  /** The items of a list of pieces that follows the plain text `literal`: runs of plain characters are merged. */
  function Compile(pieces: seq<Piece>, literal: string): seq<Option<Item>> {
    if pieces == [] then Flush(literal)
    else match pieces[0]
      case Plain(c) => Compile(pieces[1..], literal + [c])
      case Directive(d, argument) => Flush(literal) + [ItemFor(d, argument)] + Compile(pieces[1..], "")
  }

  predicate Known(piece: Piece) {
    piece.Plain? || ItemFor(piece.directive, piece.argument).Some?
  }

  /** The directives of the factory table. */
  lemma KnownExactly(piece: Piece)
    ensures Known(piece) <==>
            piece.Plain? || piece.directive in {'m', 'p', 'r', 'c', 't', 'n', 'd', 'u', 'f', 'l', 'T', 'F', 'N'}
  {
  }

  predicate IsLiteral(item: Option<Item>) {
    item.Some? && item.value.Literal?
  }

  /** No literal is empty and no two stand side by side. */
  ghost predicate Merged(items: seq<Option<Item>>) {
    && (forall i :: 0 <= i < |items| && IsLiteral(items[i]) ==> items[i].value.text != "")
    && (forall i :: 0 <= i < |items| - 1 ==> !(IsLiteral(items[i]) && IsLiteral(items[i + 1])))
  }

  lemma {:induction false} CompileMerges(pieces: seq<Piece>, literal: string)
    ensures Merged(Compile(pieces, literal))
  {
    if pieces != [] {
      match pieces[0] {
        case Plain(c) => CompileMerges(pieces[1..], literal + [c]);
        case Directive(d, argument) => CompileMerges(pieces[1..], "");
      }
    }
  }

  /** A null item appears iff some directive is unknown. */
  lemma {:induction false} CompileNulls(pieces: seq<Piece>, literal: string)
    ensures None in Compile(pieces, literal) <==> exists piece :: piece in pieces && !Known(piece)
  {
    if pieces != [] {
      var tail := pieces[1..];
      assert forall piece :: piece in pieces <==> piece == pieces[0] || piece in tail;
      match pieces[0] {
        case Plain(c) => CompileNulls(tail, literal + [c]);
        case Directive(d, argument) =>
          CompileNulls(tail, "");
          assert None in Compile(pieces, literal) <==> !Known(pieces[0]) || None in Compile(tail, "");
      }
    }
  }
}

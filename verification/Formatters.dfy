/** logger/formatter.cc: compiling a pattern and running the items against a record. */
module Formatters {
  import opened Options
  import opened InlineBuffers
  import opened Numerals
  import opened LogTime
  import opened DateCache
  import opened Patterns

  /** LogRecordView; `level` is the text of the level and the two times count nanoseconds. */
  datatype Record = Record(level: string, loggerName: string, message: string, stamp: int, elapsed: int,
                           threadId: nat, fiberId: nat, threadName: string, fileName: string, line: nat)

  const NANOS_PER_MILLI := 1_000_000

  // ---- the direct meaning of a pattern

  /** Output so far, and the exception that ended it if there was one. */
  datatype Output = Output(text: string, failure: Option<DateText>)

  function Say(text: string): Output {
    Output(text, None)
  }

  function SayDate(date: DateText): Output {
    if date.Shown? then Say(date.text) else Output("", Some(date))
  }

  /** Left to right, and nothing after a failure. */
  function Followed(first: Output, second: Output): Output {
    if first.failure.Some? then first else Output(first.text + second.text, second.failure)
  }

  /** What one piece of a pattern stands for; unknown directives are excluded by construction. */
  function PieceMeaning(library: Library, piece: Piece, record: Record): Output {
    if piece.Plain? then Say([piece.c]) else
      match piece.directive
      case 'm' => Say(record.message)
      case 'p' => Say(record.level)
      case 'r' => Say(ToChars(TruncDiv(record.elapsed, NANOS_PER_MILLI)))
      case 'c' => Say(record.loggerName)
      case 't' => Say(ToChars(record.threadId))
      case 'n' => Say("\n")
      case 'd' => SayDate(Uncached(library, EffectiveFormat(piece.argument), Second(record.stamp)))
      case 'u' => Say(MicrosText(record.stamp))
      case 'f' => Say(record.fileName)
      case 'l' => Say(ToChars(record.line))
      case 'T' => Say("\t")
      case 'F' => Say(ToChars(record.fiberId))
      case 'N' => Say(record.threadName)
      case _ => Say("")
  }

  function Meaning(library: Library, pieces: seq<Piece>, record: Record): Output {
    if pieces == [] then Say("")
    else Followed(PieceMeaning(library, pieces[0], record), Meaning(library, pieces[1..], record))
  }

  // ---- what a pattern text stands for

  /** What formatting with a pattern appends, and the exception that ends it if there is one. */
  function PatternOutput(library: Library, pattern: string, record: Record): Output
    requires Lex(pattern).Pieces?
  {
    Meaning(library, Lex(pattern).pieces, record)
  }

  lemma {:induction false} MeaningAppend(library: Library, a: seq<Piece>, b: seq<Piece>, record: Record)
    ensures Meaning(library, a + b, record) == Followed(Meaning(library, a, record), Meaning(library, b, record))
  {
    hide PieceMeaning;
    if a == [] {
      assert a + b == b;
    } else {
      assert (a + b)[1..] == a[1..] + b;
      MeaningAppend(library, a[1..], b, record);
      FollowedAssociates(PieceMeaning(library, a[0], record), Meaning(library, a[1..], record),
          Meaning(library, b, record));
    }
  }

  /** The output of a pattern is that of its left part, followed by that of its right part. */
  lemma PatternsConcatenate(library: Library, p: string, q: string, record: Record)
    requires Lex(p).Pieces? && Lex(q).Pieces? && (q != "" ==> q[0] != '{')
    ensures Lex(p + q).Pieces?
    ensures PatternOutput(library, p + q, record)
         == Followed(PatternOutput(library, p, record), PatternOutput(library, q, record))
  {
    hide Lex, Meaning;
    LexAppend(p, q);
    MeaningAppend(library, Lex(p).pieces, Lex(q).pieces, record);
  }

  lemma OnePiece(library: Library, piece: Piece, record: Record)
    requires Fit(piece)
    ensures Lex(UnlexPiece(piece)) == Pieces([piece])
    ensures PatternOutput(library, UnlexPiece(piece), record) == PieceMeaning(library, piece, record)
  {
    hide PieceMeaning, Fit, UnlexPiece, Lex;
    LexNothing();
    LexPiece(piece, "");
    assert UnlexPiece(piece) + "" == UnlexPiece(piece) && [piece] + [] == [piece];
    assert [piece][1..] == [];
    var meaning := PieceMeaning(library, piece, record);
    assert meaning.text + "" == meaning.text;
    assert Meaning(library, [piece], record) == Followed(meaning, Meaning(library, [], record));
  }

  /** Text without percent signs stands for itself, and a doubled percent sign for one. */
  lemma {:induction false} PlainTextStands(library: Library, p: string, record: Record)
    requires '%' !in p
    ensures Lex(p).Pieces? && PatternOutput(library, p, record) == Output(p, None)
  {
    if p == "" {
      LexNothing();
    } else {
      hide Lex, Meaning;
      PlainTextStands(library, p[1..], record);
      OnePiece(library, Plain(p[0]), record);
      LexAppendPlain(p);
      assert [p[0]] + p[1..] == p;
      MeaningAppend(library, [Plain(p[0])], Lex(p[1..]).pieces, record);
    }
  }

  lemma LexAppendPlain(p: string)
    requires p != "" && p[0] != '%' && Lex(p[1..]).Pieces?
    ensures Lex(p) == Pieces([Plain(p[0])] + Lex(p[1..]).pieces)
  {
  }

  lemma PercentStands(library: Library, record: Record)
    ensures Lex("%%").Pieces? && PatternOutput(library, "%%", record) == Output("%", None)
  {
    OnePiece(library, Plain('%'), record);
  }

  /** A directive without an argument. */
  lemma OneLetter(library: Library, d: char, record: Record)
    requires d != '%'
    ensures Lex(['%', d]).Pieces?
    ensures PatternOutput(library, ['%', d], record) == PieceMeaning(library, Directive(d, ""), record)
  {
    hide PieceMeaning, Lex, PatternOutput;
    OnePiece(library, Directive(d, ""), record);
    assert UnlexPiece(Directive(d, "")) == ['%', d];
  }

  /** The letters that append a text of the record or a fixed character. */
  lemma TextsStand(library: Library, record: Record)
    ensures Lex("%m").Pieces? && PatternOutput(library, "%m", record) == Output(record.message, None)
    ensures Lex("%p").Pieces? && PatternOutput(library, "%p", record) == Output(record.level, None)
    ensures Lex("%c").Pieces? && PatternOutput(library, "%c", record) == Output(record.loggerName, None)
    ensures Lex("%f").Pieces? && PatternOutput(library, "%f", record) == Output(record.fileName, None)
    ensures Lex("%N").Pieces? && PatternOutput(library, "%N", record) == Output(record.threadName, None)
    ensures Lex("%n").Pieces? && PatternOutput(library, "%n", record) == Output("\n", None)
    ensures Lex("%T").Pieces? && PatternOutput(library, "%T", record) == Output("\t", None)
  {
    hide Lex, PatternOutput;
    OneLetter(library, 'm', record);
    OneLetter(library, 'p', record);
    OneLetter(library, 'c', record);
    OneLetter(library, 'f', record);
    OneLetter(library, 'N', record);
    OneLetter(library, 'n', record);
    OneLetter(library, 'T', record);
  }

  /** The letters that append a number: milliseconds elapsed, ids, the line and the microseconds of the second. */
  lemma NumbersStand(library: Library, record: Record)
    ensures Lex("%r").Pieces? && Lex("%t").Pieces? && Lex("%l").Pieces? && Lex("%F").Pieces? && Lex("%u").Pieces?
    ensures PatternOutput(library, "%r", record) == Output(ToChars(TruncDiv(record.elapsed, 1_000_000)), None)
    ensures PatternOutput(library, "%t", record) == Output(ToChars(record.threadId), None)
    ensures PatternOutput(library, "%l", record) == Output(ToChars(record.line), None)
    ensures PatternOutput(library, "%F", record) == Output(ToChars(record.fiberId), None)
    ensures PatternOutput(library, "%u", record) == Output(MicrosText(record.stamp), None)
  {
    hide Lex, PatternOutput, ToChars, TruncDiv, MicrosText;
    OneLetter(library, 'r', record);
    OneLetter(library, 't', record);
    OneLetter(library, 'l', record);
    OneLetter(library, 'F', record);
    OneLetter(library, 'u', record);
  }

  /** What a date format stands for: the library's text for the second, unless the second cannot be converted or the
    * text with a prefix and a terminator exceeds 64 KiB. */
  function Dated(library: Library, format: string, record: Record): Output {
    match library.local(Second(record.stamp))
    case None => Output("", Some(ConversionFailed))
    case Some(t) =>
      var text := library.render(CString(format), t);
      if |text| + 2 <= 65536 then Output(text, None) else Output("", Some(ExceedsLimit))
  }

  /** A date directive stands for its argument in braces; without one, for the default format. */
  lemma DatesStand(library: Library, format: string, record: Record)
    requires format != "" && '}' !in format
    ensures WellFormed("%d{" + format + "}") && WellFormed("%d")
    ensures PatternOutput(library, "%d{" + format + "}", record) == Dated(library, format, record)
    ensures PatternOutput(library, "%d", record) == Dated(library, "%Y-%m-%d %H-%M-%S", record)
  {
    hide Lex, PatternOutput, Second, CString;
    OnePiece(library, Directive('d', format), record);
    assert UnlexPiece(Directive('d', format)) == "%d{" + format + "}";
    OnePiece(library, Directive('d', ""), record);
  }

  // ---- the meaning of compiled items

  function ItemMeaning(library: Library, item: Item, record: Record): Output {
    match item
    case Literal(text) => Say(text)
    case Message => Say(record.message)
    case Level => Say(record.level)
    case Elapsed => Say(ToChars(TruncDiv(record.elapsed, NANOS_PER_MILLI)))
    case LoggerName => Say(record.loggerName)
    case ThreadId => Say(ToChars(record.threadId))
    case NewLine => Say("\n")
    case DateTime(format) => SayDate(Uncached(library, format, Second(record.stamp)))
    case Microseconds => Say(MicrosText(record.stamp))
    case FileName => Say(record.fileName)
    case Line => Say(ToChars(record.line))
    case Tab => Say("\t")
    case FiberId => Say(ToChars(record.fiberId))
    case ThreadName => Say(record.threadName)
  }

  function ItemsMeaning(library: Library, items: seq<Option<Item>>, record: Record): Output {
    if items == [] then Say("")
    else
      var first := if items[0].Some? then ItemMeaning(library, items[0].value, record) else Say("");
      Followed(first, ItemsMeaning(library, items[1..], record))
  }

  lemma {:induction false} ItemsMeaningAppend(library: Library, a: seq<Option<Item>>, b: seq<Option<Item>>,
                                              record: Record)
    ensures ItemsMeaning(library, a + b, record)
         == Followed(ItemsMeaning(library, a, record), ItemsMeaning(library, b, record))
  {
    if a == [] {
      assert a + b == b;
    } else {
      assert (a + b)[1..] == a[1..] + b;
      ItemsMeaningAppend(library, a[1..], b, record);
    }
  }

  lemma PlainMeaning(library: Library, c: char, record: Record)
    ensures PieceMeaning(library, Plain(c), record) == Say([c])
  {
  }

  lemma DirectiveMeaning(library: Library, piece: Piece, record: Record)
    requires piece.Directive? && Known(piece)
    ensures ItemMeaning(library, ItemFor(piece.directive, piece.argument).value, record)
              == PieceMeaning(library, piece, record)
  {
    hide Uncached, EffectiveFormat, MicrosText, ToChars, TruncDiv, Second, SayDate;
  }

  lemma SingleItem(library: Library, item: Item, record: Record)
    ensures ItemsMeaning(library, [Some(item)], record) == ItemMeaning(library, item, record)
  {
    hide ItemMeaning;
    assert [Some(item)][1..] == [];
  }

  lemma NextItem(library: Library, items: seq<Option<Item>>, i: nat, record: Record)
    requires i < |items| && items[i].Some?
    ensures ItemsMeaning(library, items[i..], record)
         == Followed(ItemMeaning(library, items[i].value, record), ItemsMeaning(library, items[i + 1..], record))
  {
    hide ItemMeaning;
    assert items[i..][1..] == items[i + 1..];
  }

  lemma FollowedAssociates(a: Output, b: Output, c: Output)
    ensures Followed(Followed(a, b), c) == Followed(a, Followed(b, c))
  {
    if a.failure.None? && b.failure.None? {
      assert a.text + b.text + c.text == a.text + (b.text + c.text);
    }
  }

  lemma FlushMeaning(library: Library, literal: string, record: Record)
    ensures ItemsMeaning(library, Flush(literal), record) == Say(literal)
  {
  }

  /** Compiling and running is interpreting, for every well-formed pattern, record and date failure. */
  lemma {:induction false} CompilePreservesMeaning(library: Library, pieces: seq<Piece>, literal: string,
                                                   record: Record)
    requires forall piece :: piece in pieces ==> Known(piece)
    ensures ItemsMeaning(library, Compile(pieces, literal), record)
         == Followed(Say(literal), Meaning(library, pieces, record))
  {
    hide PieceMeaning, ItemMeaning, ItemFor, Flush;
    FlushMeaning(library, literal, record);
    if pieces != [] {
      var tail := pieces[1..];
      assert pieces[0] in pieces && forall piece :: piece in tail ==> piece in pieces;
      match pieces[0] {
        case Plain(c) =>
          CompilePreservesMeaning(library, tail, literal + [c], record);
          PlainMeaning(library, c, record);
          FollowedAssociates(Say(literal), Say([c]), Meaning(library, tail, record));
        case Directive(d, argument) =>
          CompilePreservesMeaning(library, tail, "", record);
          DirectiveMeaning(library, pieces[0], record);
          var item := ItemFor(d, argument);
          ItemsMeaningAppend(library, Flush(literal) + [item], Compile(tail, ""), record);
          ItemsMeaningAppend(library, Flush(literal), [item], record);
          SingleItem(library, item.value, record);
      }
    }
  }

  // ---- parsing

  /** The patterns for which a formatter can be constructed. */
  ghost predicate WellFormed(pattern: string) {
    Lex(pattern).Pieces? && forall piece :: piece in Lex(pattern).pieces ==> Known(piece)
  }

  /** The parse code: what stopped the lexer, if anything did, before what the factory does not know. */
  ghost function ParseCode(pattern: string): int {
    if Lex(pattern).Broken? then Lex(pattern).code
    else if WellFormed(pattern) then 0 else -3
  }

  /** The loop invariant of the parser: what is compiled and what is left make up the whole. */
  ghost predicate Remaining(items: seq<Option<Item>>, literal: string, rest: Lexed, whole: Lexed) {
    && (whole.Broken? ==> rest == whole)
    && (whole.Pieces? ==> rest.Pieces? && items + Compile(rest.pieces, literal) == Compile(whole.pieces, ""))
  }

  /** Lexing what is left from a position on, and its first step. */
  function LexFrom(p: string, index: nat): Lexed
    requires index <= |p|
  {
    Lex(p[index..])
  }

  function StepFrom(p: string, index: nat): (step: Step)
    requires index < |p|
    ensures step.Took? ==> 0 < step.used <= |p| - index
  {
    FirstStep(p[index..])
  }

  lemma FindInSuffix(p: string, c: char, index: nat, from: nat)
    requires index + from <= |p|
    ensures Find(p[index..], c, from) == Find(p, c, index + from) - index
  {
    var s, k := p[index..], Find(p, c, index + from);
    if k < |p| {
      assert s[from..k - index] == p[index + from..k];
      FindFirst(s, c, from, k - index);
    } else {
      assert s[from..] == p[index + from..k];
      forall i | from <= i < |s|
        ensures s[i] != c
      {
        assert s[i] == s[from..][i - from];
      }
    }
  }

  /** The first step of a suffix, in the terms of the parser: positions in the whole pattern. */
  lemma StepAt(p: string, index: nat)
    requires index < |p|
    ensures StepFrom(p, index) ==
            if p[index] != '%' then Took(Plain(p[index]), 1)
            else if index + 1 >= |p| then Stuck(INCOMPLETE_DIRECTIVE)
            else if p[index + 1] == '%' then Took(Plain('%'), 2)
            else if index + 2 < |p| && p[index + 2] == '{' then
              var closing := Find(p, '}', index + 3);
              if closing == |p| || closing == index + 3 then Stuck(BAD_ARGUMENT)
              else Took(Directive(p[index + 1], p[index + 3..closing]), closing + 1 - index)
            else Took(Directive(p[index + 1], ""), 2)
  {
    if index + 2 < |p| && p[index + 2] == '{' {
      FindInSuffix(p, '}', index, 3);
      var closing := Find(p, '}', index + 3);
      assert p[index..][3..closing - index] == p[index + 3..closing];
    }
  }

  lemma Advance(items: seq<Option<Item>>, literal: string, p: string, index: nat, whole: Lexed)
    requires index < |p| && StepFrom(p, index).Took?
    requires Remaining(items, literal, LexFrom(p, index), whole)
    ensures var step := StepFrom(p, index);
            match step.piece
            case Plain(c) => Remaining(items, literal + [c], LexFrom(p, index + step.used), whole)
            case Directive(d, argument) =>
              Remaining(items + Flush(literal) + [ItemFor(d, argument)], "", LexFrom(p, index + step.used), whole)
  {
    hide FirstStep;
    var step := StepFrom(p, index);
    assert p[index..][step.used..] == p[index + step.used..];
    var rest := LexFrom(p, index + step.used);
    assert LexFrom(p, index) == Then(step.piece, rest);
    if whole.Pieces? {
      assert ([step.piece] + rest.pieces)[1..] == rest.pieces;
    }
  }

  lemma Halt(items: seq<Option<Item>>, literal: string, p: string, index: nat, whole: Lexed)
    requires index < |p| && StepFrom(p, index).Stuck?
    requires whole == Lex(p) && Remaining(items, literal, LexFrom(p, index), whole)
    ensures whole == Broken(StepFrom(p, index).code) && !WellFormed(p)
  {
    hide FirstStep;
  }

  class Formatter {
    const pattern: string
    var items: seq<Option<Item>>

    /** A formatter that was constructed without an exception. */
    ghost predicate Valid()
      reads this
    {
      WellFormed(pattern) && items == Compile(Lex(pattern).pieces, "")
    }

    constructor (pattern: string)
      ensures this.pattern == pattern && items == []
    {
      this.pattern := pattern;
      items := [];
    }

    method AddLiteral(literal: string) returns (cleared: string)
      modifies this
      ensures cleared == "" && items == old(items) + Flush(literal)
    {
      if literal == "" {
        return literal;
      }
      items := items + [Some(Literal(literal))];
      cleared := "";
    }

    /** The loop body from a directive on: the literal before it is stored, then its item; an argument that is
      * unclosed or empty is reported. */
    method ParseDirective(start: nat, pending: string) returns (code: int, next: nat)
      requires start + 1 < |pattern| && pattern[start] == '%' && pattern[start + 1] != '%'
      modifies this
      ensures match StepFrom(pattern, start)
              case Stuck(reason) => code == reason == BAD_ARGUMENT
              case Took(piece, used) =>
                && code == 0 && next == start + used && piece.Directive?
                && items == old(items) + Flush(pending) + [ItemFor(piece.directive, piece.argument)]
    {
      hide StepFrom, Flush, ItemFor;
      StepAt(pattern, start);
      var index := start + 1;
      var directive := pattern[index];
      var literal := AddLiteral(pending);
      var itemFormat := "";
      if index + 1 < |pattern| && pattern[index + 1] == '{' {
        var closingBrace := Find(pattern, '}', index + 2);
        if closingBrace == |pattern| || closingBrace == index + 2 {
          return BAD_ARGUMENT, index;
        }
        itemFormat := pattern[index + 2..closingBrace];
        index := closingBrace;
      }
      items := items + [ItemFor(directive, itemFormat)];
      return 0, index + 1;
    }

    method HasNull() returns (found: bool)
      ensures found <==> None in items
    {
      for k := 0 to |items|
        invariant None !in items[..k]
      {
        if items[k].None? {
          return true;
        }
      }
      assert items[..|items|] == items;
      found := false;
    }

    /** The parser that the constructor calls; the constructor throws unless this returns 0. */
    method Parse() returns (code: int)
      requires items == []
      modifies this
      ensures code == ParseCode(pattern)
      ensures code == 0 <==> WellFormed(pattern)
      ensures code == 0 ==> Valid() && Merged(items)
    {
      hide StepFrom, LexFrom, Compile, Remaining, Lex, Flush, WellFormed, Merged, ItemFor, Find;
      var literal := "";
      var index := 0;
      ghost var whole := Lex(pattern);
      NothingParsed(pattern);
      while index < |pattern|
        invariant 0 <= index <= |pattern|
        invariant Remaining(items, literal, LexFrom(pattern, index), whole)
        decreases |pattern| - index
      {
        StepAt(pattern, index);
        if pattern[index] != '%' {
          Advance(items, literal, pattern, index, whole);
          literal := literal + [pattern[index]];
          index := index + 1;
          continue;
        }
        if index + 1 >= |pattern| {
          Halt(items, literal, pattern, index, whole);
          return INCOMPLETE_DIRECTIVE;
        }
        if pattern[index + 1] == '%' {
          Advance(items, literal, pattern, index, whole);
          literal := literal + "%";
          index := index + 2;
          continue;
        }
        ghost var before := items;
        var failed, next := ParseDirective(index, literal);
        if failed != 0 {
          Halt(before, literal, pattern, index, whole);
          return failed;
        }
        Advance(before, literal, pattern, index, whole);
        literal := "";
        index := next;
      }
      EndOfPattern(items, literal, pattern, whole);
      literal := AddLiteral(literal);
      ParsedItems(pattern, items);
      var incomplete := HasNull();
      code := if incomplete then UNKNOWN_DIRECTIVE else 0;
    }

    /** One item appends its field, or throws before it has appended anything. */
    method FormatItem(library: Library, cache: Cache, item: Item, record: Record, output: InlineBuffer)
      returns (failure: Option<DateText>)
      requires cache.Valid(library) && output.Valid() && library.CopiesPrefix() && Representable(record)
      modifies cache, output, output.inline
      ensures cache.Valid(library) && output.Valid()
      ensures Output(output.View(), failure)
           == Followed(Say(old(output.View())), ItemMeaning(library, item, record))
    {
      failure := None;
      match item
      case Literal(text) => output.Append(text);
      case Message => output.Append(record.message);
      case Level => output.Append(record.level);
      case Elapsed => AppendInteger(output, TruncDiv(record.elapsed, NANOS_PER_MILLI));
      case LoggerName => output.Append(record.loggerName);
      case ThreadId => AppendInteger(output, record.threadId);
      case NewLine => output.AppendChar('\n');
      case DateTime(format) =>
        var outcome := cache.Format(library, format, record.stamp, output);
        if !outcome.Shown? {
          failure := Some(outcome);
        }
      case Microseconds =>
        var digits := WriteMicros(record.stamp);
        output.Append(digits);
      case FileName => output.Append(record.fileName);
      case Line => AppendInteger(output, record.line);
      case Tab => output.AppendChar('\t');
      case FiberId => AppendInteger(output, record.fiberId);
      case ThreadName => output.Append(record.threadName);
    }

    /** Formatting appends the direct meaning of the pattern, up to the first date item that throws. */
    method Format(library: Library, cache: Cache, record: Record, output: InlineBuffer)
      returns (failure: Option<DateText>)
      requires Valid() && cache.Valid(library) && output.Valid() && library.CopiesPrefix() && Representable(record)
      modifies cache, output, output.inline
      ensures cache.Valid(library) && output.Valid()
      ensures Output(output.View(), failure)
           == Followed(Say(old(output.View())), PatternOutput(library, pattern, record))
    {
      hide Lex, Compile, ItemsMeaning, ItemMeaning, PieceMeaning, Meaning, Followed;
      ghost var total := ItemsMeaning(library, items, record);
      ValidItems(library, pattern, items, record);
      var i := 0;
      assert items[0..] == items;
      while i < |items|
        invariant 0 <= i <= |items|
        invariant cache.Valid(library) && output.Valid()
        invariant Followed(Say(output.View()), ItemsMeaning(library, items[i..], record))
               == Followed(Say(old(output.View())), total)
      {
        ghost var said := output.View();
        failure := FormatItem(library, cache, items[i].value, record, output);
        Progress(library, items, i, record, said, Output(output.View(), failure));
        if failure.Some? {
          return;
        }
        i := i + 1;
      }
      failure := None;
      Finished(library, items, record, output.View());
    }
  }

  lemma ValidItems(library: Library, pattern: string, items: seq<Option<Item>>, record: Record)
    requires WellFormed(pattern) && items == Compile(Lex(pattern).pieces, "")
    ensures forall i :: 0 <= i < |items| ==> items[i].Some?
    ensures ItemsMeaning(library, items, record) == Meaning(library, Lex(pattern).pieces, record)
  {
    hide Lex, Compile, ItemsMeaning, PieceMeaning;
    CompileNulls(Lex(pattern).pieces, "");
    CompilePreservesMeaning(library, Lex(pattern).pieces, "", record);
    assert forall i :: 0 <= i < |items| ==> items[i] in items;
  }

  /** What one item leaves to be said. */
  lemma Progress(library: Library, items: seq<Option<Item>>, i: nat, record: Record, said: string, output: Output)
    requires i < |items| && items[i].Some?
    requires output == Followed(Say(said), ItemMeaning(library, items[i].value, record))
    ensures var before := Followed(Say(said), ItemsMeaning(library, items[i..], record));
            if output.failure.Some? then output == before
            else Followed(Say(output.text), ItemsMeaning(library, items[i + 1..], record)) == before
  {
    hide ItemMeaning, ItemsMeaning;
    NextItem(library, items, i, record);
    FollowedAssociates(Say(said), ItemMeaning(library, items[i].value, record),
        ItemsMeaning(library, items[i + 1..], record));
  }

  lemma Finished(library: Library, items: seq<Option<Item>>, record: Record, said: string)
    ensures Followed(Say(said), ItemsMeaning(library, items[|items|..], record)) == Output(said, None)
  {
  }

  lemma NothingParsed(p: string)
    ensures Remaining([], "", LexFrom(p, 0), Lex(p))
  {
    assert p[0..] == p;
  }

  lemma ParsedItems(pattern: string, items: seq<Option<Item>>)
    requires Lex(pattern).Pieces? && items == Compile(Lex(pattern).pieces, "")
    ensures None in items <==> !WellFormed(pattern)
    ensures Merged(items)
  {
    hide Lex, Compile, Known, Merged;
    CompileNulls(Lex(pattern).pieces, "");
    CompileMerges(Lex(pattern).pieces, "");
  }

  lemma EndOfPattern(items: seq<Option<Item>>, literal: string, p: string, whole: Lexed)
    requires Remaining(items, literal, LexFrom(p, |p|), whole)
    ensures whole.Pieces? && items + Flush(literal) == Compile(whole.pieces, "")
  {
  }

  // ---- integers

  /** The record's integers are those of its C++ types: 64-bit ids, a 32-bit line, signed 64-bit times. */
  predicate Representable(record: Record) {
    && record.threadId < 0x1_0000_0000_0000_0000
    && record.fiberId < 0x1_0000_0000_0000_0000
    && record.line < 0x1_0000_0000
    && Int64(record.elapsed) && Int64(record.stamp)
  }

  const INTEGER_CAPACITY := 24

  lemma {:induction false} DigitsFit(n: nat, width: nat)
    requires width > 0 && n < Power(10, width)
    ensures |Digits(n)| <= width
  {
    if n >= 10 {
      DigitsFit(n / 10, width - 1);
    }
  }

  /** std::to_chars into 24 characters, which is room for any 64-bit integer. */
  method AppendInteger(output: InlineBuffer, value: int)
    requires output.Valid()
    requires -0x8000_0000_0000_0000 <= value < 0x1_0000_0000_0000_0000
    modifies output, output.inline
    ensures output.Valid() && output.View() == old(output.View()) + ToChars(value)
  {
    assert |ToChars(value)| <= INTEGER_CAPACITY by {
      assert Power(10, 20) == 100_000_000_000_000_000_000 by {
        assert Power(10, 10) == 10_000_000_000;
      }
      DigitsFit(if value < 0 then -value else value, 20);
    }
    var text := ToChars(value);
    if |text| > INTEGER_CAPACITY {
      return;
    }
    output.Append(text);
  }
}

/** The date item of logger/formatter.cc: strftime text behind a cache that every formatter of a thread shares. */
module DateCache {
  import opened Options
  import opened InlineBuffers
  import opened LogTime

  const MAX_BUFFER_SIZE := 65536
  const INITIAL_BUFFER_SIZE := 128
  const DEFAULT_DATE_FORMAT := "%Y-%m-%d %H-%M-%S"

  /** The fields of struct tm. */
  datatype LocalTime = LocalTime(sec: int, min: int, hour: int, mday: int, mon: int, year: int, wday: int, yday: int,
                                 isdst: int)

  /** The C library under a fixed time zone and locale: localtime_r, which can fail, and the text that strftime
    * generates for a C string, whatever the room for it. */
  datatype Library = Library(local: int -> Option<LocalTime>, render: (string, LocalTime) -> string) {
    /** An ordinary character of the format is copied: what this relies on is that the prefix '!' is. */
    ghost predicate CopiesPrefix() {
      forall format: string, t: LocalTime :: render("!" + format, t) == "!" + render(format, t)
    }
  }

  /** What c_str() shows of a string: the characters before the first NUL. */
  function CString(s: string): string {
    if s == "" || s[0] == '\0' then "" else [s[0]] + CString(s[1..])
  }

  /** A string without NUL is its own C string, and otherwise the first NUL ends it. */
  lemma {:induction false} CStringEnds(s: string, k: nat)
    requires k <= |s| && '\0' !in s[..k] && (k < |s| ==> s[k] == '\0')
    ensures CString(s) == s[..k]
  {
    if k > 0 {
      assert s[..k][0] == s[0] && s[1..][..k - 1] == s[..k][1..];
      CStringEnds(s[1..], k - 1);
      assert s[..k] == [s[0]] + s[1..][..k - 1];
    }
  }

  /** strftime (section 7.27.3.5 of ISO C11): text that does not fit with its NUL leaves the array indeterminate. */
  method Strftime(library: Library, buffer: seq<char>, format: string, t: LocalTime)
    returns (written: seq<char>, size: nat)
    ensures |written| == |buffer|
    ensures var text := library.render(CString(format), t);
            if |text| + 1 <= |buffer| then size == |text| && written[..size] == text else size == 0
  {
    var text := library.render(CString(format), t);
    if |text| + 1 <= |buffer| {
      return text + ['\0'] + buffer[|text| + 1..], |text|;
    }
    var garbage := new char[|buffer|];
    return garbage[..], 0;
  }

  /** What a date item contributes, or the exception that it throws. */
  datatype DateText = Shown(text: string) | ConversionFailed | ExceedsLimit

  /** The date text computed afresh: no cache, no buffer. Prefix and terminator count towards the limit. */
  function Uncached(library: Library, format: string, second: int): DateText {
    match library.local(second)
    case None => ConversionFailed
    case Some(t) =>
      var text := library.render(CString(format), t);
      if |text| + 2 <= MAX_BUFFER_SIZE then Shown(text) else ExceedsLimit
  }

  function EffectiveFormat(format: string): string {
    if format == "" then DEFAULT_DATE_FORMAT else format
  }

  /** The buffer sizes: 128 doubled some number of times, up to 65536. */
  predicate IsBufferSize(n: nat) {
    n in {128, 256, 512, 1024, 2048, 4096, 8192, 16384, 32768, 65536}
  }

  lemma BufferSizesDouble(n: nat)
    requires IsBufferSize(n) && n < MAX_BUFFER_SIZE
    ensures IsBufferSize(2 * n)
  {
  }

  lemma BufferSizesBounded(n: nat)
    requires IsBufferSize(n)
    ensures INITIAL_BUFFER_SIZE <= n <= MAX_BUFFER_SIZE
  {
  }

  class Cache {
    var valid: bool
    var second: int
    var format: string
    var buffer: seq<char>
    var size: nat

    /** A valid entry holds the prefixed text for its key; an invalid one may hold anything. */
    ghost predicate Valid(library: Library)
      reads this
    {
      && IsBufferSize(|buffer|)
      && (valid ==>
            && 1 <= size <= |buffer|
            && Uncached(library, format, second) == Shown(buffer[1..size]))
    }

    constructor ()
      ensures !valid && |buffer| == INITIAL_BUFFER_SIZE
      ensures forall library :: Valid(library)
    {
      valid := false;
      second := 0;
      format := "";
      buffer := seq(INITIAL_BUFFER_SIZE, i => '\0');
      size := 0;
    }

    /** The miss: recompute into the buffer, doubling it until the text fits. It grows only when the text did not fit in
      * half of what it becomes. */
    method Refresh(library: Library, itemFormat: string, currentSecond: int, t: LocalTime) returns (fits: bool)
      requires IsBufferSize(|buffer|) && !valid && library.CopiesPrefix()
      modifies this
      ensures IsBufferSize(|buffer|) && |buffer| >= old(|buffer|)
      ensures var text := library.render(CString(itemFormat), t);
              && fits == (|text| + 2 <= MAX_BUFFER_SIZE)
              && (|buffer| > old(|buffer|) ==> |text| + 2 > |buffer| / 2)
              && valid == fits
              && (fits ==>
                    && format == itemFormat && second == currentSecond
                    && 1 <= size <= |buffer| && buffer[1..size] == text)
    {
      hide IsBufferSize;
      var prefixed := "!" + itemFormat;
      ghost var text := library.render(CString(itemFormat), t);
      PrefixedText(library, itemFormat, t);
      while true
        invariant !valid && IsBufferSize(|buffer|) && |buffer| >= old(|buffer|)
        invariant |buffer| > old(|buffer|) ==> |text| + 2 > |buffer| / 2
        decreases MAX_BUFFER_SIZE - |buffer|
      {
        BufferSizesBounded(|buffer|);
        var written, length := Strftime(library, buffer, prefixed, t);
        buffer := written;
        if length != 0 {
          format := itemFormat;
          second := currentSecond;
          size := length;
          valid := true;
          WithoutPrefix(buffer, size, text);
          return true;
        }
        if |buffer| >= MAX_BUFFER_SIZE {
          return false;
        }
        BufferSizesDouble(|buffer|);
        buffer := buffer + seq(|buffer|, i => '\0');
      }
    }

    /** A hit or a miss, after any earlier calls whatever they were: the output gains the uncached text, or is left
      * alone when that text does not exist. */
    method Format(library: Library, itemFormat: string, stamp: int, output: InlineBuffer) returns (outcome: DateText)
      requires Valid(library) && output.Valid() && library.CopiesPrefix()
      modifies this, output, output.inline
      ensures Valid(library) && output.Valid()
      ensures outcome == Uncached(library, itemFormat, Second(stamp))
      ensures output.View() == old(output.View()) + Contribution(outcome)
    {
      hide IsBufferSize, Floor, TruncDiv, Wrap64;
      var seconds := Floor(stamp, NANOS_PER_SECOND);
      var timePoint := Wrap64(seconds * NANOS_PER_SECOND);
      var currentSecond := TruncDiv(timePoint, NANOS_PER_SECOND);
      if valid && second == currentSecond && format == itemFormat {
        output.Append(buffer[1..size]);
        return Shown(buffer[1..size]);
      }
      valid := false;
      var converted := library.local(currentSecond);
      if converted.None? {
        return ConversionFailed;
      }
      BufferSizesBounded(|buffer|);
      var fits := Refresh(library, itemFormat, currentSecond, converted.value);
      if !fits {
        return ExceedsLimit;
      }
      output.Append(buffer[1..size]);
      return Shown(buffer[1..size]);
    }
  }

  /** What a date item appends: nothing when it throws. */
  function Contribution(outcome: DateText): string {
    if outcome.Shown? then outcome.text else ""
  }

  lemma PrefixedText(library: Library, format: string, t: LocalTime)
    requires library.CopiesPrefix()
    ensures library.render(CString("!" + format), t) == "!" + library.render(CString(format), t)
  {
    assert ("!" + format)[1..] == format;
    assert CString("!" + format) == "!" + CString(format);
  }

  lemma WithoutPrefix(buffer: string, size: nat, text: string)
    requires size <= |buffer| && buffer[..size] == "!" + text
    ensures size == |text| + 1 && buffer[1..size] == text
  {
    assert buffer[1..size] == buffer[..size][1..];
  }

  datatype Request = Request(format: string, stamp: int)

  /** All the date items that one thread formats, of any formatters, in any order, past any failures: every call behaves
    * as if it were the first. */
  method FormatAll(library: Library, cache: Cache, requests: seq<Request>, output: InlineBuffer)
    returns (outcomes: seq<DateText>)
    requires cache.Valid(library) && output.Valid() && library.CopiesPrefix()
    modifies cache, output, output.inline
    ensures cache.Valid(library) && output.Valid()
    ensures |outcomes| == |requests|
    ensures forall k :: 0 <= k < |requests| ==>
              outcomes[k] == Uncached(library, requests[k].format, Second(requests[k].stamp))
    ensures output.View() == old(output.View()) + Contributions(outcomes)
  {
    hide Uncached, Contribution, Second, IsBufferSize;
    outcomes := [];
    var i := 0;
    while i < |requests|
      invariant 0 <= i <= |requests| && |outcomes| == i
      invariant cache.Valid(library) && output.Valid()
      invariant forall k :: 0 <= k < i ==>
                  outcomes[k] == Uncached(library, requests[k].format, Second(requests[k].stamp))
      invariant output.View() == old(output.View()) + Contributions(outcomes)
    {
      var outcome := cache.Format(library, requests[i].format, requests[i].stamp, output);
      assert (outcomes + [outcome])[..i] == outcomes;
      outcomes := outcomes + [outcome];
      i := i + 1;
    }
  }

  function Contributions(outcomes: seq<DateText>): string {
    if outcomes == [] then ""
    else Contributions(outcomes[..|outcomes| - 1]) + Contribution(outcomes[|outcomes| - 1])
  }
}

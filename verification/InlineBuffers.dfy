/** The small-buffer of logger/buffer.h: bytes go to an inline array until they no longer fit, then to a vector. */
module InlineBuffers {
  import opened Options

  class InlineBuffer {
    const inline: array<char>     // its length is INLINE_CAPACITY
    var overflow: seq<char>
    var length: nat               // m_size

    ghost predicate Valid()
      reads this
    {
      if overflow == [] then length <= inline.Length else length == |overflow|
    }

    /** The bytes that `data()` and `size()` delimit. */
    function View(): seq<char>
      requires Valid()
      reads this, inline
    {
      if overflow == [] then inline[..length] else overflow
    }

    constructor (capacity: nat)
      ensures Valid() && View() == [] && inline.Length == capacity && fresh(inline)
    {
      inline := new char[capacity];
      overflow := [];
      length := 0;
    }

    /** Appending is concatenation, on whichever side of the switch to the vector it falls. */
    method Append(data: seq<char>)
      requires Valid()
      modifies this, inline
      ensures Valid() && View() == old(View()) + data
    {
      if |data| == 0 {
        return;
      }
      if overflow == [] && length + |data| <= inline.Length {
        Copy(data);
        return;
      }
      if overflow == [] {
        overflow := inline[..length];
      }
      overflow := overflow + data;
      length := |overflow|;
    }

    /** memcpy behind the bytes already held. */
    method Copy(data: seq<char>)
      requires overflow == [] && length + |data| <= inline.Length
      modifies this`length, inline
      ensures length == old(length) + |data|
      ensures inline[..length] == old(inline[..length]) + data
    {
      var k := 0;
      while k < |data|
        modifies inline
        invariant 0 <= k <= |data|
        invariant inline[..length + k] == old(inline[..length]) + data[..k]
      {
        inline[length + k] := data[k];
        assert inline[..length + k + 1] == inline[..length + k] + [data[k]];
        k := k + 1;
      }
      assert data[..k] == data;
      length := length + |data|;
    }

    method AppendChar(value: char)
      requires Valid()
      modifies this, inline
      ensures Valid() && View() == old(View()) + [value]
    {
      Append([value]);
    }
  }

  /** The std::streambuf that writes into an InlineBuffer. */
  class SmallStreamBuffer {
    const buffer: InlineBuffer

    constructor (buffer: InlineBuffer)
      ensures this.buffer == buffer
    {
      this.buffer := buffer;
    }

    /** xsputn with a count of `size` characters, which may be negative. */
    method Put(data: seq<char>, size: int) returns (written: int)
      requires buffer.Valid() && size <= |data|
      modifies buffer, buffer.inline
      ensures buffer.Valid()
      ensures written == if size > 0 then size else 0
      ensures buffer.View() == old(buffer.View()) + data[..written]
    {
      if size <= 0 {
        return 0;
      }
      buffer.Append(data[..size]);
      written := size;
    }

    /** overflow with a character, or with end-of-file. */
    method Overflow(character: Option<char>) returns (accepted: bool)
      requires buffer.Valid()
      modifies buffer, buffer.inline
      ensures buffer.Valid() && accepted
      ensures buffer.View() == old(buffer.View()) + (match character case None => [] case Some(c) => [c])
    {
      if character.Some? {
        buffer.AppendChar(character.value);
      }
      accepted := true;
    }
  }
}

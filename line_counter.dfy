/** The streaming line counter `fast_line_count`: it reads the file in fixed-size
    chunks and adds up the newline bytes of each chunk. */
module LineCounter {
  newtype byte = x: int | 0 <= x < 256

  /** The byte b"\n". */
  const Newline: byte := 10

  /** Bytes asked of each `read` call: 8192 * 1024, i.e. 8 MB. */
  const ChunkSize: nat := 8192 * 1024

  /** `bytes.count(b"\n")`: the newline bytes of one buffer, counted left to right. */
  function CountNewlines(buffer: seq<byte>): (n: nat)
    ensures n <= |buffer|
    ensures n == 0 <==> Newline !in buffer
  {
    if buffer == [] then 0
    else (if buffer[0] == Newline then 1 else 0) + CountNewlines(buffer[1..])
  }

  /** The reference count of a whole file: how often the newline byte occurs in it. */
  function NewlinesIn(file: seq<byte>): nat {
    multiset(file)[Newline]
  }

  /** Counting a buffer left to right agrees with the reference count. */
  lemma {:induction false} CountNewlinesIsReference(buffer: seq<byte>)
    ensures CountNewlines(buffer) == NewlinesIn(buffer)
  {
    if buffer != [] {
      CountNewlinesIsReference(buffer[1..]);
      assert buffer == [buffer[0]] + buffer[1..];
    }
  }

  /** `fast_line_count(file, has_header)`: the sum over all 8 MB chunks of their
      newline counts, minus one when the first line is a header. With a header an
      empty file gives -1. */
  method FastLineCount(file: seq<byte>, hasHeader: bool) returns (lineCount: int)
    ensures lineCount == NewlinesIn(file) - (if hasHeader then 1 else 0)
    ensures hasHeader && Newline !in file ==> lineCount == -1
  {
    lineCount := 0;
    var consumed := 0;
    while true
      invariant 0 <= consumed <= |file|
      invariant lineCount == NewlinesIn(file[..consumed])
      decreases |file| - consumed
    {
      var end := if consumed + ChunkSize <= |file| then consumed + ChunkSize else |file|;
      var buffer := file[consumed..end];
      if |buffer| == 0 {
        break;
      }
      CountNewlinesIsReference(buffer);
      assert file[..end] == file[..consumed] + buffer;
      lineCount := lineCount + CountNewlines(buffer);
      consumed := end;
    }
    assert file[..consumed] == file;
    if hasHeader {
      lineCount := lineCount - 1;
    }
  }
}

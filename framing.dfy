/**
 * The length-prefixed framing of the RPC stack (external/rpcss.py): a frame is
 * the decimal length of its payload, a newline, then exactly that many bytes.
 */
module Framing {
  import opened Options
  import opened Bytes

  /** Why `read` gave no frame: end of stream (`EOS`) or a length line `int()` rejects. */
  datatype ReadError = EOS | BadLength(line: Bytes)

  datatype ReadResult = Frame(data: Bytes, rest: Bytes) | Failed(error: ReadError)

  /** `write(x, stream)`: the bytes appended to the stream. */
  function Write(x: Bytes): Bytes {
    Decimal(|x|) + [Newline] + x
  }

  /**
   * `read(stream)`: one line for the length (without its last byte), then that
   * many bytes. An empty line, which `readline` gives only at the end of the
   * stream, is EOS.
   */
  function Read(s: Bytes): (r: ReadResult)
    ensures r == Failed(EOS) <==> s == []
    ensures r.Frame? ==> |r.rest| < |s| && r.rest == s[|s| - |r.rest|..]
  {
    var (line, rest) := Readline(s);
    if |line| == 0 then Failed(EOS)
    else
      match ParseInt(line[..|line| - 1])
      case None => Failed(BadLength(line))
      case Some(n) =>
        var (data, rest') := ReadN(rest, n);
        Frame(data, rest')
  }

  /** A frame that `write` produced is read back exactly, leaving the stream after it. */
  lemma RoundTrip(x: Bytes, rest: Bytes)
    ensures Read(Write(x) + rest) == Frame(x, rest)
  {
    var d := Decimal(|x|);
    assert forall i :: 0 <= i < |d| ==> d[i] != Newline by {
      forall i | 0 <= i < |d| ensures d[i] != Newline { assert IsDigit(d[i]); }
    }
    assert Write(x) + rest == d + [Newline] + (x + rest);
    ReadlineOfLine(d, x + rest);
    assert (d + [Newline])[..|d|] == d;
    ParseDecimal(|x|);
    assert (x + rest)[..|x|] == x && (x + rest)[|x|..] == rest;
  }

  /** The frames of several writes, in order. */
  function WriteAll(xs: seq<Bytes>): Bytes {
    if xs == [] then [] else Write(xs[0]) + WriteAll(xs[1..])
  }

  lemma ReadFirstOfAll(xs: seq<Bytes>)
    requires xs != []
    ensures Read(WriteAll(xs)) == Frame(xs[0], WriteAll(xs[1..]))
  {
    RoundTrip(xs[0], WriteAll(xs[1..]));
  }

  lemma ReadStreamStep(s: Bytes, x: Bytes, rest: Bytes)
    requires Read(s) == Frame(x, rest)
    ensures ReadStream(s) == ([x] + ReadStream(rest).0, ReadStream(rest).1)
  {
  }

  lemma ReadStreamOfAll(xs: seq<Bytes>)
    requires xs != []
    ensures ReadStream(WriteAll(xs)) == ([xs[0]] + ReadStream(WriteAll(xs[1..])).0, ReadStream(WriteAll(xs[1..])).1)
  {
    ReadFirstOfAll(xs);
    ReadStreamStep(WriteAll(xs), xs[0], WriteAll(xs[1..]));
  }

  /**
   * What the reader thread (`Reader.run`) puts on its queue: frames read one
   * after another until `read` fails; `error` is EOS when the thread ends
   * quietly, anything else is the exception it records.
   */
  function ReadStream(s: Bytes): (r: (seq<Bytes>, ReadError))
    decreases |s|
  {
    match Read(s)
    case Failed(e) => ([], e)
    case Frame(x, rest) =>
      var more := ReadStream(rest);
      ([x] + more.0, more.1)
  }

  /** An empty stream puts nothing on the queue and ends the reader quietly. */
  lemma ReadStreamOfEmpty()
    ensures ReadStream([]) == ([], EOS)
  {
    assert Read([]) == Failed(EOS);
  }

  /** The queue a reader builds from a stream of written frames holds exactly those frames, ending with EOS. */
  lemma {:induction false} StreamRoundTrip(xs: seq<Bytes>)
    ensures ReadStream(WriteAll(xs)) == (xs, EOS)
  {
    if xs == [] {
      ReadStreamOfEmpty();
      assert WriteAll(xs) == [];
    } else {
      StreamRoundTrip(xs[1..]);
      StreamRoundTripStep(xs);
    }
  }

  lemma StreamRoundTripStep(xs: seq<Bytes>)
    requires xs != [] && ReadStream(WriteAll(xs[1..])) == (xs[1..], EOS)
    ensures ReadStream(WriteAll(xs)) == (xs, EOS)
  {
    assert [xs[0]] + xs[1..] == xs;
    assert ReadStream(WriteAll(xs)) == ([xs[0]] + xs[1..], EOS) by {
      ReadStreamOfAll(xs);
    }
  }

  /** An empty length line is never taken for data: only the end of the stream gives EOS. */
  lemma EmptyLineIsEos(s: Bytes)
    ensures Readline(s).0 == [] <==> Read(s) == Failed(EOS)
  {
  }
}

/**
 * The older pipe transport of external/run_external.py: object frames
 * `\0<len>\n<pickle>` and raw text lines on the child's stdout and stderr, the
 * reader that queues what its callback does not claim, the host-side generator
 * `runExternal` that drains those queues round by round, the `Interface` that
 * starts and steers the child, and the child's pause/unpause/quit loop.
 *
 * Pickling is a pair of parameters: `pickle` turns an object into bytes and
 * `unpickle` reads bytes back (None when `pickle.loads` raises). Lemmas that
 * need them to agree say so for the objects concerned.
 */
module RunExternal {
  import opened Options
  import opened Bytes

  /** A Python object on the pipe: a byte string, or any other object (known by an id). */
  datatype Obj = Str(text: Bytes) | Object(id: nat)

  type Pickler = Obj -> Bytes
  type Unpickler = Bytes -> Option<Obj>

  /** The three control lines the host writes to the child's stdin. */
  const PauseLine: Bytes := [112, 97, 117, 115, 101, 10]             // "pause\n"
  const UnpauseLine: Bytes := [117, 110, 112, 97, 117, 115, 101, 10] // "unpause\n"
  const QuitLine: Bytes := [113, 117, 105, 116, 10]                  // "quit\n"
  const SudoWord: Bytes := [115, 117, 100, 111]                      // "sudo"

  /** The header `'\0{}\n'.format(n)` in front of a pickled object of `n` bytes. */
  function Header(n: nat): Bytes {
    [Nul] + Decimal(n) + [Newline]
  }

  /**
   * `send(x, stream, forceBin)`: the bytes written. Objects that are not strings,
   * and anything when `forceBin` is set, are pickled behind a header; strings
   * are written as they are.
   */
  function Send(x: Obj, forceBin: bool, pickle: Pickler): Bytes {
    if forceBin || !x.Str? then Header(|pickle(x)|) + pickle(x) else x.text
  }

  /** Several `send(x, stream)` calls in a row. */
  function SendAll(xs: seq<Obj>, pickle: Pickler): Bytes {
    if xs == [] then [] else Send(xs[0], false, pickle) + SendAll(xs[1..], pickle)
  }

  lemma SendAllAppend(xs: seq<Obj>, x: Obj, pickle: Pickler)
    ensures SendAll(xs + [x], pickle) == SendAll(xs, pickle) + Send(x, false, pickle)
  {
    if xs != [] {
      assert (xs + [x])[1..] == xs[1..] + [x];
      SendAllAppend(xs[1..], x, pickle);
    } else {
      assert ([x])[1..] == [];
    }
  }

  /**
   * The length the pattern `\0(\d+)\n` captures when it matches a line at its
   * start. A line from `readline` holds a newline only as its last byte, so a
   * match covers the whole line.
   */
  function MatchHeader(line: Bytes): (r: Option<nat>)
    ensures r.Some? <==> (3 <= |line| && line[0] == Nul && line[|line| - 1] == Newline &&
                          AllDigits(line[1..|line| - 1]))
  {
    if 3 <= |line| && line[0] == Nul && line[|line| - 1] == Newline && AllDigits(line[1..|line| - 1])
    then Some(DigitsValue(line[1..|line| - 1]))
    else None
  }

  /** What the reader queues: the value and whether it arrived as an object. */
  datatype Entry = Entry(x: Obj, isObj: bool)

  /** The outcome of `recieve`: None at the end of the stream, a value, or `pickle.loads` raising. */
  datatype Reception = EndOfStream | Received(entry: Entry, rest: Bytes) | Corrupt(rest: Bytes)

  /**
   * `recieve(stream)`: one line; a header line is followed by exactly that many
   * bytes of pickle, anything else is a text line returned as it is.
   */
  function Receive(s: Bytes, unpickle: Unpickler): (r: Reception)
    ensures r.EndOfStream? <==> s == []
    ensures r.Received? ==> |r.rest| < |s|
    ensures r.Corrupt? ==> |r.rest| < |s|
  {
    var (line, rest) := Readline(s);
    if |line| == 0 then EndOfStream
    else
      match MatchHeader(line)
      case Some(n) =>
        var (data, rest') := ReadN(rest, n);
        if unpickle(data).Some? then Received(Entry(unpickle(data).value, true), rest')
        else Corrupt(rest')
      case None => Received(Entry(Str(line), false), rest)
  }

  /** A pickled object is received back as that object, leaving the stream after it. */
  lemma SendReceiveObject(x: Obj, forceBin: bool, pickle: Pickler, unpickle: Unpickler, rest: Bytes)
    requires forceBin || x.Object?
    requires unpickle(pickle(x)) == Some(x)
    ensures Receive(Send(x, forceBin, pickle) + rest, unpickle) == Received(Entry(x, true), rest)
  {
    var p := pickle(x);
    assert Send(x, forceBin, pickle) + rest == Header(|p|) + (p + rest);
    ReadlineOfHeader(|p|, p + rest);
    MatchHeaderOfHeader(|p|);
    assert ReadN(p + rest, |p|) == (p, rest) by {
      assert (p + rest)[..|p|] == p && (p + rest)[|p|..] == rest;
    }
    ReceiveOfHeader(Send(x, forceBin, pickle) + rest, Header(|p|), p + rest, p, rest, unpickle);
  }

  /** A header is one line: `readline` stops at its newline. */
  lemma ReadlineOfHeader(n: nat, rest: Bytes)
    ensures Readline(Header(n) + rest) == (Header(n), rest)
  {
    var d := Decimal(n);
    var h := [Nul] + d;
    assert forall i :: 0 <= i < |h| ==> h[i] != Newline by {
      forall i | 0 <= i < |h| ensures h[i] != Newline {
        if i > 0 { assert h[i] == d[i - 1] && IsDigit(d[i - 1]); }
      }
    }
    assert Header(n) + rest == h + [Newline] + rest;
    ReadlineOfLine(h, rest);
  }

  /** The header pattern reads back the length a header was written with. */
  lemma MatchHeaderOfHeader(n: nat)
    ensures MatchHeader(Header(n)) == Some(n)
  {
    var line := Header(n);
    assert line[1..|line| - 1] == Decimal(n);
    DecimalValue(n);
  }

  /** A header line followed by a payload that unpickles is received as that object. */
  lemma ReceiveOfHeader(s: Bytes, line: Bytes, after: Bytes, data: Bytes, rest: Bytes, unpickle: Unpickler)
    requires Readline(s) == (line, after) && line != []
    requires MatchHeader(line) == Some(|data|) && ReadN(after, |data|) == (data, rest)
    requires unpickle(data).Some?
    ensures Receive(s, unpickle) == Received(Entry(unpickle(data).value, true), rest)
  {
  }

  /**
   * A text line that does not start with the NUL of a header is received as a
   * string, newline included, and is not taken for an object.
   */
  lemma SendReceiveLine(line: Bytes, pickle: Pickler, unpickle: Unpickler, rest: Bytes)
    requires forall i :: 0 <= i < |line| ==> line[i] != Newline
    requires line == [] || line[0] != Nul
    ensures Receive(Send(Str(line + [Newline]), false, pickle) + rest, unpickle)
      == Received(Entry(Str(line + [Newline]), false), rest)
  {
    ReadlineOfLine(line, rest);
    assert (line + [Newline])[0] != Nul;
  }

  /** The control lines the host sends reach the child as those strings. */
  lemma ControlLinesReceived(pickle: Pickler, unpickle: Unpickler, rest: Bytes)
    ensures Receive(Send(Str(PauseLine), false, pickle) + rest, unpickle) == Received(Entry(Str(PauseLine), false), rest)
    ensures Receive(Send(Str(UnpauseLine), false, pickle) + rest, unpickle) == Received(Entry(Str(UnpauseLine), false), rest)
    ensures Receive(Send(Str(QuitLine), false, pickle) + rest, unpickle) == Received(Entry(Str(QuitLine), false), rest)
  {
    SendReceiveLine(PauseLine[..5], pickle, unpickle, rest);
    assert PauseLine[..5] + [Newline] == PauseLine;
    SendReceiveLine(UnpauseLine[..7], pickle, unpickle, rest);
    assert UnpauseLine[..7] + [Newline] == UnpauseLine;
    SendReceiveLine(QuitLine[..4], pickle, unpickle, rest);
    assert QuitLine[..4] + [Newline] == QuitLine;
  }

  /**
   * What `StreamReader.run` does with the stream `s`: every received entry its
   * callback does not claim is queued, until the end of the stream or until
   * `pickle.loads` raises (`crashed`), which ends the reader thread.
   */
  datatype ReaderTrace = ReaderTrace(kept: seq<Entry>, rest: Bytes, crashed: bool)

  /** What the queue gains from entry `e`: nothing when the callback claims it. */
  function Kept(claims: (Obj, bool) -> bool, e: Entry): seq<Entry> {
    if claims(e.x, e.isObj) then [] else [e]
  }

  function ReaderRun(s: Bytes, claims: (Obj, bool) -> bool, unpickle: Unpickler): (r: ReaderTrace)
    ensures |r.kept| <= |s| && |r.rest| <= |s|
    ensures !r.crashed ==> r.rest == []
    decreases |s|
  {
    match Receive(s, unpickle)
    case EndOfStream => ReaderTrace([], [], false)
    case Corrupt(rest) => ReaderTrace([], rest, true)
    case Received(e, rest) =>
      var t := ReaderRun(rest, claims, unpickle);
      ReaderTrace(Kept(claims, e) + t.kept, t.rest, t.crashed)
  }

  /** A trace with `added` queued before it. */
  function After(added: seq<Entry>, t: ReaderTrace): ReaderTrace {
    ReaderTrace(added + t.kept, t.rest, t.crashed)
  }

  /** One reception's worth of ReaderRun. */
  lemma ReaderRunUnfold(s: Bytes, claims: (Obj, bool) -> bool, unpickle: Unpickler)
    ensures Receive(s, unpickle).EndOfStream? ==> ReaderRun(s, claims, unpickle) == ReaderTrace([], [], false)
    ensures Receive(s, unpickle).Corrupt? ==> ReaderRun(s, claims, unpickle) == ReaderTrace([], Receive(s, unpickle).rest, true)
    ensures Receive(s, unpickle).Received? ==>
      ReaderRun(s, claims, unpickle) == After(Kept(claims, Receive(s, unpickle).entry), ReaderRun(Receive(s, unpickle).rest, claims, unpickle))
  {
  }

  /** The step `run` takes for a received entry, after `added` was queued. */
  lemma ReaderRunStep(s: Bytes, added: seq<Entry>, claims: (Obj, bool) -> bool, unpickle: Unpickler)
    requires Receive(s, unpickle).Received?
    ensures After(added, ReaderRun(s, claims, unpickle))
      == After(added + Kept(claims, Receive(s, unpickle).entry), ReaderRun(Receive(s, unpickle).rest, claims, unpickle))
  {
    var k, r := Kept(claims, Receive(s, unpickle).entry), ReaderRun(Receive(s, unpickle).rest, claims, unpickle);
    ReaderRunUnfold(s, claims, unpickle);
    assert added + (k + r.kept) == (added + k) + r.kept;
  }

  /** Where `run` stops: the end of the stream, or a frame that does not unpickle. */
  lemma ReaderRunEnds(s: Bytes, added: seq<Entry>, claims: (Obj, bool) -> bool, unpickle: Unpickler)
    requires !Receive(s, unpickle).Received?
    ensures Receive(s, unpickle).EndOfStream? ==> After(added, ReaderRun(s, claims, unpickle)) == ReaderTrace(added, s, false)
    ensures Receive(s, unpickle).Corrupt? ==> After(added, ReaderRun(s, claims, unpickle)) == ReaderTrace(added, Receive(s, unpickle).rest, true)
  {
    ReaderRunUnfold(s, claims, unpickle);
    assert added + [] == added;
  }

  /** The reader queues nothing its callback claims. */
  lemma {:induction false} ReaderKeepsUnclaimed(s: Bytes, claims: (Obj, bool) -> bool, unpickle: Unpickler)
    ensures forall i :: 0 <= i < |ReaderRun(s, claims, unpickle).kept| ==>
      !claims(ReaderRun(s, claims, unpickle).kept[i].x, ReaderRun(s, claims, unpickle).kept[i].isObj)
    decreases |s|
  {
    match Receive(s, unpickle)
    case EndOfStream =>
    case Corrupt(_) =>
    case Received(e, rest) =>
      ReaderKeepsUnclaimed(rest, claims, unpickle);
      var k: seq<Entry>, t: seq<Entry> := Kept(claims, e), ReaderRun(rest, claims, unpickle).kept;
      assert ReaderRun(s, claims, unpickle).kept == k + t by {
        ReaderRunUnfold(s, claims, unpickle);
      }
      forall i | 0 <= i < |k + t| ensures !claims((k + t)[i].x, (k + t)[i].isObj) {
        if i >= |k| {
          assert (k + t)[i] == t[i - |k|];
        }
      }
  }

  /** The entries a callback leaves unclaimed, in order. */
  function Unclaimed(es: seq<Entry>, claims: (Obj, bool) -> bool): seq<Entry> {
    if es == [] then [] else (if claims(es[0].x, es[0].isObj) then [] else [es[0]]) + Unclaimed(es[1..], claims)
  }

  /** The bytes of sending each object of `xs` as a pickled frame. */
  function SendObjects(xs: seq<Obj>, pickle: Pickler): Bytes {
    if xs == [] then [] else Send(xs[0], true, pickle) + SendObjects(xs[1..], pickle)
  }

  function AsObjects(xs: seq<Obj>): (r: seq<Entry>)
    ensures |r| == |xs| && forall i :: 0 <= i < |xs| ==> r[i] == Entry(xs[i], true)
  {
    if xs == [] then [] else [Entry(xs[0], true)] + AsObjects(xs[1..])
  }

  /**
   * A reader of a stream of pickled frames queues exactly the frames its
   * callback leaves, in the order they were sent, and reaches the end cleanly.
   */
  lemma {:induction false} ReaderOfSentObjects(xs: seq<Obj>, claims: (Obj, bool) -> bool,
                                               pickle: Pickler, unpickle: Unpickler)
    requires forall i :: 0 <= i < |xs| ==> unpickle(pickle(xs[i])) == Some(xs[i])
    ensures ReaderRun(SendObjects(xs, pickle), claims, unpickle)
      == ReaderTrace(Unclaimed(AsObjects(xs), claims), [], false)
  {
    if xs != [] {
      SendReceiveObject(xs[0], true, pickle, unpickle, SendObjects(xs[1..], pickle));
      ReaderOfSentObjects(xs[1..], claims, pickle, unpickle);
      assert AsObjects(xs)[1..] == AsObjects(xs[1..]);
    }
  }

  /** `Interface._onStdout` / `_onStderr`: claim (print) strings, let objects through. */
  function DefaultClaims(x: Obj, isObj: bool): bool {
    !isObj
  }

  /** `lambda x, isObj: False`, which `runExternal` installs: claims nothing. */
  function ClaimsNothing(x: Obj, isObj: bool): bool {
    false
  }

  /** With the callback `runExternal` installs, the reader queues every frame. */
  lemma SilentReaderKeepsAll(xs: seq<Obj>, pickle: Pickler, unpickle: Unpickler)
    requires forall i :: 0 <= i < |xs| ==> unpickle(pickle(xs[i])) == Some(xs[i])
    ensures ReaderRun(SendObjects(xs, pickle), ClaimsNothing, unpickle).kept == AsObjects(xs)
  {
    ReaderOfSentObjects(xs, ClaimsNothing, pickle, unpickle);
    UnclaimedOfNothing(AsObjects(xs));
  }

  lemma {:induction false} UnclaimedOfNothing(es: seq<Entry>)
    ensures Unclaimed(es, ClaimsNothing) == es
  {
    if es != [] {
      UnclaimedOfNothing(es[1..]);
    }
  }

  /** `StreamReader`: a stream, a callback and the deque of entries it queues. */
  class StreamReader {
    var stream: Bytes
    var queue: seq<Entry>
    var stop: bool
    const claims: (Obj, bool) -> bool

    constructor (stream: Bytes, claims: (Obj, bool) -> bool)
      ensures this.stream == stream && this.claims == claims
      ensures queue == [] && !stop
    {
      this.stream := stream;
      this.claims := claims;
      queue := [];
      stop := false;
    }

    /**
     * `run`: receive until the stream ends, queueing what the callback does not
     * claim. A `Stop` already set ends it before the first read.
     */
    method Run(unpickle: Unpickler) returns (crashed: bool)
      modifies this`stream, this`queue
      ensures stop ==> stream == old(stream) && queue == old(queue) && !crashed
      ensures !stop ==> queue == old(queue) + ReaderRun(old(stream), claims, unpickle).kept
      ensures !stop ==> stream == ReaderRun(old(stream), claims, unpickle).rest
      ensures !stop ==> crashed == ReaderRun(old(stream), claims, unpickle).crashed
    {
      crashed := false;
      if stop {
        return;
      }
      ghost var whole := ReaderRun(stream, claims, unpickle);
      ghost var added: seq<Entry> := [];
      assert whole == After(added, whole);
      while true
        invariant queue == old(queue) + added
        invariant whole == After(added, ReaderRun(stream, claims, unpickle))
        decreases |stream|
      {
        ghost var s := stream;
        var n := ReceiveOne(unpickle);
        if n.EndOfStream? {
          ReaderRunEnds(s, added, claims, unpickle);
          break;
        }
        if n.Corrupt? {
          ReaderRunEnds(s, added, claims, unpickle);
          crashed := true;
          return;
        }
        ReaderRunStep(s, added, claims, unpickle);
        Regroup(old(queue), added, Kept(claims, n.entry));
        added := added + Kept(claims, n.entry);
      }
    }

    /** One `recieve` of `run`: the entry is queued unless the callback claims it. */
    method ReceiveOne(unpickle: Unpickler) returns (n: Reception)
      modifies this`stream, this`queue
      ensures n == Receive(old(stream), unpickle)
      ensures n.EndOfStream? ==> stream == old(stream) && queue == old(queue)
      ensures n.Corrupt? ==> stream == n.rest && queue == old(queue)
      ensures n.Received? ==> stream == n.rest && queue == old(queue) + Kept(claims, n.entry)
    {
      n := Receive(stream, unpickle);
      if n.EndOfStream? {
        return;
      }
      if n.Received? {
        var e := n.entry;
        if !claims(e.x, e.isObj) {
          queue := queue + [e];
        }
      }
      stream := n.rest;
    }
  }

  /** What the host's queues hold when one round of `runExternal` looks at them. */
  datatype Batch = Batch(alive: bool, err: seq<Entry>, out: seq<Entry>)

  datatype RunEnd = Completed | Raised(error: Obj) | Horizon

  /**
   * What `runExternal` produced after its first `yield None`: the values it
   * yielded, the strings printed to stdout and to stderr, and how it ended.
   */
  datatype RunLog = RunLog(values: seq<Option<Obj>>, printed: seq<Bytes>, errPrinted: seq<Bytes>, end: RunEnd)

  function TextOf(o: Obj): Bytes {
    if o.Str? then o.text else []
  }

  datatype ErrDrain = ErrDrain(printed: seq<Bytes>, raised: Option<Obj>)

  /** Popping the stderr queue: strings are printed; the first object is raised. */
  function DrainErr(q: seq<Entry>): (r: ErrDrain)
  {
    if q == [] then ErrDrain([], None)
    else if q[0].isObj then ErrDrain([], Some(q[0].x))
    else
      var t := DrainErr(q[1..]);
      ErrDrain([TextOf(q[0].x)] + t.printed, t.raised)
  }

  datatype OutDrain = OutDrain(values: seq<Obj>, printed: seq<Bytes>)

  /** Popping the stdout queue: objects are yielded in order, strings printed. */
  function DrainOut(q: seq<Entry>): (r: OutDrain)
    ensures |r.values| + |r.printed| == |q|
  {
    if q == [] then OutDrain([], [])
    else
      var t := DrainOut(q[1..]);
      if q[0].isObj then OutDrain([q[0].x] + t.values, t.printed)
      else OutDrain(t.values, [TextOf(q[0].x)] + t.printed)
  }

  function Yielded(xs: seq<Obj>): (r: seq<Option<Obj>>)
    ensures |r| == |xs| && forall i :: 0 <= i < |xs| ==> r[i] == Some(xs[i])
  {
    if xs == [] then [] else [Some(xs[0])] + Yielded(xs[1..])
  }

  /** Prefix a log with the output of one round. */
  function Before(y: seq<Option<Obj>>, p: seq<Bytes>, e: seq<Bytes>, log: RunLog): RunLog {
    RunLog(y + log.values, p + log.printed, e + log.errPrinted, log.end)
  }

  /**
   * The rounds of `runExternal` after its first `yield None`. A round whose
   * child is no longer alive drains both queues once more and completes;
   * an object on stderr is raised; a live round that yields no object yields
   * None. A schedule that runs out leaves the generator waiting (`Horizon`).
   */
  function Rounds(rounds: seq<Batch>): (r: RunLog)
    decreases |rounds|
  {
    if rounds == [] then RunLog([], [], [], Horizon)
    else
      var b := rounds[0];
      var err := DrainErr(b.err);
      if err.raised.Some? then RunLog([], [], err.printed, Raised(err.raised.value))
      else
        var out := DrainOut(b.out);
        if !b.alive then RunLog(Yielded(out.values), out.printed, err.printed, Completed)
        else
          Before(if out.values == [] then [None] else Yielded(out.values), out.printed, err.printed,
                 Rounds(rounds[1..]))
  }

  /** The rounds that run: up to and including the first whose child is dead. */
  function Played(rounds: seq<Batch>): (r: seq<Batch>)
    ensures |r| <= |rounds| && r == rounds[..|r|]
    ensures |r| < |rounds| ==> r != [] && !r[|r| - 1].alive
  {
    if rounds == [] then []
    else if !rounds[0].alive then [rounds[0]]
    else [rounds[0]] + Played(rounds[1..])
  }

  function ObjectsOf(es: seq<Entry>): seq<Obj> {
    if es == [] then [] else (if es[0].isObj then [es[0].x] else []) + ObjectsOf(es[1..])
  }

  function Present(ys: seq<Option<Obj>>): seq<Obj> {
    if ys == [] then [] else (if ys[0].Some? then [ys[0].value] else []) + Present(ys[1..])
  }

  function OutOf(rounds: seq<Batch>): seq<Entry> {
    if rounds == [] then [] else rounds[0].out + OutOf(rounds[1..])
  }

  lemma {:induction false} PresentAppend(a: seq<Option<Obj>>, b: seq<Option<Obj>>)
    ensures Present(a + b) == Present(a) + Present(b)
  {
    if a != [] {
      assert (a + b)[1..] == a[1..] + b;
      PresentAppend(a[1..], b);
    } else {
      assert a + b == b;
    }
  }

  lemma {:induction false} ObjectsAppend(a: seq<Entry>, b: seq<Entry>)
    ensures ObjectsOf(a + b) == ObjectsOf(a) + ObjectsOf(b)
  {
    if a != [] {
      assert (a + b)[1..] == a[1..] + b;
      ObjectsAppend(a[1..], b);
    } else {
      assert a + b == b;
    }
  }

  lemma {:induction false} DrainOutYieldsObjects(q: seq<Entry>)
    ensures Present(Yielded(DrainOut(q).values)) == ObjectsOf(q)
    ensures DrainOut(q).values == ObjectsOf(q)
  {
    if q != [] {
      DrainOutYieldsObjects(q[1..]);
      var t := DrainOut(q[1..]).values;
      if q[0].isObj {
        assert Yielded([q[0].x] + t) == [Some(q[0].x)] + Yielded(t);
        assert ([Some(q[0].x)] + Yielded(t))[1..] == Yielded(t);
      }
    }
  }

  /**
   * A run that completes yields, besides its Nones, exactly the objects that
   * reached the stdout queue, in FIFO order.
   */
  lemma {:induction false} CompletedRunYieldsStdoutObjects(rounds: seq<Batch>)
    requires Rounds(rounds).end == Completed
    ensures Present(Rounds(rounds).values) == ObjectsOf(OutOf(Played(rounds)))
    decreases |rounds|
  {
    var b := rounds[0];
    DrainOutYieldsObjects(b.out);
    var out := DrainOut(b.out);
    if !b.alive {
      assert Played(rounds) == [b];
      assert OutOf([b]) == b.out + OutOf([]);
      assert b.out + [] == b.out;
    } else {
      CompletedRunYieldsStdoutObjects(rounds[1..]);
      var y := if out.values == [] then [None] else Yielded(out.values);
      assert Present(y) == ObjectsOf(b.out) by {
        if out.values == [] {
          assert Present([None]) == [] + Present([]);
        }
      }
      PresentAppend(y, Rounds(rounds[1..]).values);
      assert OutOf(Played(rounds)) == b.out + OutOf(Played(rounds[1..]));
      ObjectsAppend(b.out, OutOf(Played(rounds[1..])));
    }
  }

  /** The error `runExternal` raises is the first object of some round's stderr queue. */
  lemma {:induction false} RaisedComesFromStderr(rounds: seq<Batch>)
    requires Rounds(rounds).end.Raised?
    ensures exists k, i ::
      0 <= k < |rounds| && 0 <= i < |rounds[k].err| && rounds[k].err[i] == Entry(Rounds(rounds).end.error, true)
    decreases |rounds|
  {
    var b := rounds[0];
    if DrainErr(b.err).raised.Some? {
      DrainErrRaisesObject(b.err);
      var i :| 0 <= i < |b.err| && b.err[i] == Entry(DrainErr(b.err).raised.value, true);
      assert rounds[0].err[i] == Entry(Rounds(rounds).end.error, true);
    } else {
      RaisedComesFromStderr(rounds[1..]);
      var k, i :| 0 <= k < |rounds[1..]| && 0 <= i < |rounds[1..][k].err| &&
        rounds[1..][k].err[i] == Entry(Rounds(rounds[1..]).end.error, true);
      assert rounds[k + 1].err[i] == Entry(Rounds(rounds).end.error, true);
    }
  }

  lemma {:induction false} DrainErrRaisesObject(q: seq<Entry>)
    requires DrainErr(q).raised.Some?
    ensures exists i :: 0 <= i < |q| && q[i] == Entry(DrainErr(q).raised.value, true)
  {
    if !q[0].isObj {
      DrainErrRaisesObject(q[1..]);
      var i :| 0 <= i < |q[1..]| && q[1..][i] == Entry(DrainErr(q[1..]).raised.value, true);
      assert q[i + 1] == Entry(DrainErr(q).raised.value, true);
    } else {
      assert q[0] == Entry(DrainErr(q).raised.value, true);
    }
  }

  /** The host's callbacks for text lines: the default printers, the silent one, or a caller's own. */
  datatype Handler = Printer | Silent | Custom(id: nat)

  /** The child process: its command line, the bytes written to its stdin, and whether `poll()` is None. */
  datatype Child = Child(command: seq<Bytes>, stdin: Bytes, running: bool)

  /** `_start`'s command list: `sudo` when asked for, the interpreter, this file, the import paths. */
  function Command(sudo: bool, interpreter: Bytes, file: Bytes, importPaths: seq<Bytes>): (r: seq<Bytes>)
    ensures |r| == (if sudo then 1 else 0) + 2 + |importPaths|
    ensures sudo ==> r[0] == SudoWord
    ensures r[|r| - |importPaths|..] == importPaths
    ensures r[|r| - |importPaths| - 2] == interpreter && r[|r| - |importPaths| - 1] == file
  {
    (if sudo then [SudoWord] else []) + [interpreter, file] + importPaths
  }

  /** `Interface`: the settings and the child it starts. */
  class Interface {
    var sudo: bool
    var importPaths: seq<Bytes>
    var onStdout: Handler
    var onStderr: Handler
    var job: Obj
    var child: Option<Child>
    /** The callbacks the current stream readers were given. */
    var readers: Option<(Handler, Handler)>
    /** How often `BeforeSudo` has been called. */
    var beforeSudoCalls: nat

    constructor (sudo: bool, importPaths: seq<Bytes>, onStdout: Option<Handler>, onStderr: Option<Handler>)
      ensures this.sudo == sudo && this.importPaths == importPaths
      ensures this.onStdout == onStdout.GetOr(Printer) && this.onStderr == onStderr.GetOr(Printer)
      ensures child == None && readers == None && beforeSudoCalls == 0
    {
      this.sudo := sudo;
      this.importPaths := importPaths;
      this.onStdout := onStdout.GetOr(Printer);
      this.onStderr := onStderr.GetOr(Printer);
      job := Object(0);
      child := None;
      readers := None;
      beforeSudoCalls := 0;
    }

    /** `isAlive`: a child was started and has not exited. */
    function IsAlive(): bool
      reads this
    {
      child.Some? && child.value.running
    }

    /**
     * `_start`: refuse while a child is alive; otherwise launch the command,
     * attach readers with the current callbacks and send the job.
     */
    method Start(interpreter: Bytes, file: Bytes, pickle: Pickler) returns (inUse: bool)
      modifies this`child, this`readers, this`beforeSudoCalls
      ensures inUse == old(IsAlive())
      ensures inUse ==> child == old(child) && readers == old(readers) && beforeSudoCalls == old(beforeSudoCalls)
      ensures !inUse ==> child == Some(Child(Command(sudo, interpreter, file, importPaths), Send(job, false, pickle), true))
      ensures !inUse ==> readers == Some((onStdout, onStderr))
      ensures !inUse ==> beforeSudoCalls == old(beforeSudoCalls) + (if sudo then 1 else 0)
    {
      if IsAlive() {
        return true;
      }
      inUse := false;
      var cmds: seq<Bytes> := [];
      if sudo {
        beforeSudoCalls := beforeSudoCalls + 1;
        cmds := cmds + [SudoWord];
      }
      cmds := cmds + [interpreter, file];
      cmds := cmds + importPaths;
      assert cmds == Command(sudo, interpreter, file, importPaths);
      child := Some(Child(cmds, [], true));
      readers := Some((onStdout, onStderr));
      assert [] + Send(job, false, pickle) == Send(job, false, pickle);
      child := Some(child.value.(stdin := child.value.stdin + Send(job, false, pickle)));
    }

    /** Send a control line to a live child; do nothing otherwise. */
    method Control(line: Bytes, pickle: Pickler)
      modifies this`child
      ensures old(IsAlive()) ==> child == Some(old(child).value.(stdin := old(child).value.stdin + line))
      ensures !old(IsAlive()) ==> child == old(child)
    {
      if !IsAlive() {
        return;
      }
      assert Send(Str(line), false, pickle) == line;
      child := Some(child.value.(stdin := child.value.stdin + Send(Str(line), false, pickle)));
    }

    method Pause(pickle: Pickler)
      modifies this`child
      ensures old(IsAlive()) ==> child == Some(old(child).value.(stdin := old(child).value.stdin + PauseLine))
      ensures !old(IsAlive()) ==> child == old(child)
    {
      Control(PauseLine, pickle);
    }

    method Unpause(pickle: Pickler)
      modifies this`child
      ensures old(IsAlive()) ==> child == Some(old(child).value.(stdin := old(child).value.stdin + UnpauseLine))
      ensures !old(IsAlive()) ==> child == old(child)
    {
      Control(UnpauseLine, pickle);
    }

    method Quit(pickle: Pickler)
      modifies this`child
      ensures old(IsAlive()) ==> child == Some(old(child).value.(stdin := old(child).value.stdin + QuitLine))
      ensures !old(IsAlive()) ==> child == old(child)
    {
      Control(QuitLine, pickle);
    }

    /** The environment: the child exits or keeps running when `poll()` is asked. */
    method Observe(alive: bool)
      modifies this`child
      ensures child == if old(child).Some? then Some(old(child).value.(running := alive)) else None
    {
      if child.Some? {
        child := Some(child.value.(running := alive));
      }
    }
  }

  /** Pop the stderr queue to empty, or until an object is to be raised. */
  method PopErr(q: seq<Entry>) returns (printed: seq<Bytes>, raised: Option<Obj>)
    ensures ErrDrain(printed, raised) == DrainErr(q)
  {
    var queue := q;
    printed := [];
    raised := None;
    while |queue| != 0
      invariant DrainErr(q) == ErrDrain(printed + DrainErr(queue).printed, DrainErr(queue).raised)
      decreases |queue|
    {
      var e := queue[0];
      queue := queue[1..];
      if e.isObj {
        raised := Some(e.x);
        return;
      }
      printed := printed + [TextOf(e.x)];
    }
  }

  /** Pop the stdout queue to empty: objects are yielded, strings printed. */
  method PopOut(q: seq<Entry>) returns (yielded: seq<Obj>, printed: seq<Bytes>)
    ensures OutDrain(yielded, printed) == DrainOut(q)
  {
    var queue := q;
    yielded := [];
    printed := [];
    while |queue| != 0
      invariant DrainOut(q) == OutDrain(yielded + DrainOut(queue).values, printed + DrainOut(queue).printed)
      decreases |queue|
    {
      var e := queue[0];
      queue := queue[1..];
      if !e.isObj {
        printed := printed + [TextOf(e.x)];
        continue;
      }
      yielded := yielded + [e.x];
    }
  }

  /** One round of `runExternal` over a batch. */
  method RunRound(b: Batch) returns (y: seq<Option<Obj>>, p: seq<Bytes>, e: seq<Bytes>, raised: Option<Obj>)
    ensures e == DrainErr(b.err).printed && raised == DrainErr(b.err).raised
    ensures raised.None? ==> p == DrainOut(b.out).printed
    ensures raised.None? && b.alive ==> y == if DrainOut(b.out).values == [] then [None] else Yielded(DrainOut(b.out).values)
    ensures raised.None? && !b.alive ==> y == Yielded(DrainOut(b.out).values)
  {
    y, p := [], [];
    e, raised := PopErr(b.err);
    if raised.Some? {
      return;
    }
    var ys;
    ys, p := PopOut(b.out);
    y := Yielded(ys);
    if b.alive && ys == [] {
      y := [None];
    }
  }

  /**
   * `runExternal(interface, f, args, kwargs)`: silence the callbacks, start the
   * child, yield None, then run the rounds. The callbacks are restored only
   * when the run completes.
   */
  method RunExternal(iface: Interface, job: Obj, rounds: seq<Batch>, interpreter: Bytes, file: Bytes, pickle: Pickler)
    returns (inUse: bool, log: RunLog)
    modifies iface
    ensures inUse == old(iface.IsAlive())
    ensures !inUse ==> log == Before([None], [], [], Rounds(rounds))
    ensures !inUse ==> iface.readers == Some((Silent, Silent))
    ensures !inUse && log.end == Completed ==> iface.onStdout == old(iface.onStdout) && iface.onStderr == old(iface.onStderr)
    ensures inUse || log.end != Completed ==> iface.onStdout == Silent && iface.onStderr == Silent
  {
    iface.job := job;
    var onStdout, onStderr := iface.onStdout, iface.onStderr;
    iface.onStdout, iface.onStderr := Silent, Silent;
    inUse := iface.Start(interpreter, file, pickle);
    log := RunLog([], [], [], Horizon);
    if inUse {
      return;
    }
    var ys: seq<Option<Obj>> := [None];
    var ps: seq<Bytes> := [];
    var es: seq<Bytes> := [];
    var k := 0;
    while k < |rounds|
      invariant 0 <= k <= |rounds|
      invariant iface.readers == Some((Silent, Silent))
      invariant iface.onStdout == Silent && iface.onStderr == Silent
      invariant Before([None], [], [], Rounds(rounds)) == Before(ys, ps, es, Rounds(rounds[k..]))
      decreases |rounds| - k
    {
      var b := rounds[k];
      iface.Observe(b.alive);
      var y, p, e, raised := RunRound(b);
      assert rounds[k..][0] == b && rounds[k..][1..] == rounds[k + 1..];
      if raised.Some? {
        log := Before(ys, ps, es + e, RunLog([], [], [], Raised(raised.value)));
        return;
      }
      if !b.alive {
        log := Before(ys + y, ps + p, es + e, RunLog([], [], [], Completed));
        iface.onStdout, iface.onStderr := onStdout, onStderr;
        return;
      }
      Regroup(ys, y, Rounds(rounds[k + 1..]).values);
      Regroup(ps, p, Rounds(rounds[k + 1..]).printed);
      Regroup(es, e, Rounds(rounds[k + 1..]).errPrinted);
      ys, ps, es := ys + y, ps + p, es + e;
      k := k + 1;
    }
    log := Before(ys, ps, es, RunLog([], [], [], Horizon));
  }

  lemma Regroup<T>(a: seq<T>, b: seq<T>, c: seq<T>)
    ensures a + (b + c) == a + b + c
  {
  }

  /** The generator the child runs: its items, then StopIteration or an exception. */
  datatype Gen = Gen(items: seq<Obj>, failure: Option<Obj>)

  datatype ChildEnd = Exhausted | GenFailed(error: Obj) | Quitted | Waiting

  datatype ChildLog = ChildLog(sent: seq<Obj>, end: ChildEnd)

  datatype Flags = Flags(pause: bool, quit: bool)

  /**
   * Draining the child's stdin queue: `pause\n` and `unpause\n` set and clear
   * the pause flag, `quit\n` ends the drain with the rest left unread.
   */
  function Scan(batch: seq<Entry>, pause: bool): (r: Flags)
  {
    if batch == [] then Flags(pause, false)
    else
      var x := batch[0].x;
      if x == Str(QuitLine) then Flags(pause, true)
      else Scan(batch[1..], if x == Str(PauseLine) then true else if x == Str(UnpauseLine) then false else pause)
  }

  /**
   * The child's loop over the batches its queue holds at each iteration: a
   * quit ends it; while paused the generator is not advanced; otherwise one
   * item is sent, or the loop ends at StopIteration or the generator's error.
   */
  function ChildRun(arrivals: seq<seq<Entry>>, gen: Gen, pos: nat, pause: bool): (r: ChildLog)
    requires pos <= |gen.items|
    ensures |r.sent| <= |gen.items| - pos
    decreases |arrivals|
  {
    if arrivals == [] then ChildLog([], Waiting)
    else
      var f := Scan(arrivals[0], pause);
      if f.quit then ChildLog([], Quitted)
      else if f.pause then ChildRun(arrivals[1..], gen, pos, true)
      else if pos == |gen.items| then ChildLog([], if gen.failure.Some? then GenFailed(gen.failure.value) else Exhausted)
      else
        var t := ChildRun(arrivals[1..], gen, pos + 1, false);
        ChildLog([gen.items[pos]] + t.sent, t.end)
  }

  /** The child sends the generator's items in order, from where it stands. */
  lemma {:induction false} ChildSendsInOrder(arrivals: seq<seq<Entry>>, gen: Gen, pos: nat, pause: bool)
    requires pos <= |gen.items|
    ensures ChildRun(arrivals, gen, pos, pause).sent == gen.items[pos..pos + |ChildRun(arrivals, gen, pos, pause).sent|]
    decreases |arrivals|
  {
    if arrivals != [] {
      var f := Scan(arrivals[0], pause);
      if !f.quit && f.pause {
        ChildSendsInOrder(arrivals[1..], gen, pos, true);
      } else if !f.quit && pos < |gen.items| {
        var t := ChildRun(arrivals[1..], gen, pos + 1, false);
        ChildSendsInOrder(arrivals[1..], gen, pos + 1, false);
        assert ChildRun(arrivals, gen, pos, pause).sent == [gen.items[pos]] + t.sent;
        assert gen.items[pos..pos + 1 + |t.sent|] == [gen.items[pos]] + gen.items[pos + 1..pos + 1 + |t.sent|];
      } else {
        assert ChildRun(arrivals, gen, pos, pause).sent == [];
      }
    }
  }

  predicate NoUnpause(arrivals: seq<seq<Entry>>) {
    forall k, i :: 0 <= k < |arrivals| && 0 <= i < |arrivals[k]| ==> arrivals[k][i].x != Str(UnpauseLine)
  }

  lemma {:induction false} ScanStaysPaused(batch: seq<Entry>)
    requires forall i :: 0 <= i < |batch| ==> batch[i].x != Str(UnpauseLine)
    ensures Scan(batch, true).pause
  {
    if batch != [] {
      ScanStaysPaused(batch[1..]);
    }
  }

  /** A paused child that is never sent `unpause\n` never advances its generator. */
  lemma {:induction false} PausedChildSendsNothing(arrivals: seq<seq<Entry>>, gen: Gen, pos: nat)
    requires pos <= |gen.items|
    requires NoUnpause(arrivals)
    ensures ChildRun(arrivals, gen, pos, true).sent == []
    ensures ChildRun(arrivals, gen, pos, true).end in {Quitted, Waiting}
    decreases |arrivals|
  {
    if arrivals != [] {
      ScanStaysPaused(arrivals[0]);
      if !Scan(arrivals[0], true).quit {
        assert NoUnpause(arrivals[1..]) by {
          forall k, i | 0 <= k < |arrivals[1..]| && 0 <= i < |arrivals[1..][k]|
            ensures arrivals[1..][k][i].x != Str(UnpauseLine)
          {
            assert arrivals[1..][k] == arrivals[k + 1];
          }
        }
        PausedChildSendsNothing(arrivals[1..], gen, pos);
      }
    }
  }

  /** A `quit\n` ends the drain: whatever follows it in the batch has no effect. */
  lemma {:induction false} QuitIgnoresRest(before: seq<Entry>, quit: Entry, after: seq<Entry>, pause: bool)
    requires quit.x == Str(QuitLine)
    requires forall i :: 0 <= i < |before| ==> before[i].x != Str(QuitLine)
    ensures Scan(before + [quit] + after, pause) == Flags(Scan(before, pause).pause, true)
  {
    if before == [] {
      assert ([quit] + after)[0] == quit;
    } else {
      var x := before[0].x;
      assert (before + [quit] + after)[1..] == before[1..] + [quit] + after;
      QuitIgnoresRest(before[1..], quit, after,
        if x == Str(PauseLine) then true else if x == Str(UnpauseLine) then false else pause);
    }
  }

  /** Batches without control lines leave the pause flag as it is. */
  lemma {:induction false} ScanOfPlain(batch: seq<Entry>, pause: bool)
    requires forall i :: 0 <= i < |batch| ==> batch[i].x !in {Str(PauseLine), Str(UnpauseLine), Str(QuitLine)}
    ensures Scan(batch, pause) == Flags(pause, false)
  {
    if batch != [] {
      ScanOfPlain(batch[1..], pause);
    }
  }

  /**
   * An unpaused child that receives no control lines sends every remaining item
   * and then ends as its generator does, given enough iterations.
   */
  lemma {:induction false} UnpausedChildRunsToEnd(arrivals: seq<seq<Entry>>, gen: Gen, pos: nat)
    requires pos <= |gen.items| < pos + |arrivals|
    requires forall k, i :: 0 <= k < |arrivals| && 0 <= i < |arrivals[k]| ==>
      arrivals[k][i].x !in {Str(PauseLine), Str(UnpauseLine), Str(QuitLine)}
    ensures ChildRun(arrivals, gen, pos, false).sent == gen.items[pos..]
    ensures ChildRun(arrivals, gen, pos, false).end == if gen.failure.Some? then GenFailed(gen.failure.value) else Exhausted
    decreases |arrivals|
  {
    ScanOfPlain(arrivals[0], false);
    if pos < |gen.items| {
      forall k, i | 0 <= k < |arrivals[1..]| && 0 <= i < |arrivals[1..][k]|
        ensures arrivals[1..][k][i].x !in {Str(PauseLine), Str(UnpauseLine), Str(QuitLine)}
      {
        assert arrivals[1..][k] == arrivals[k + 1];
      }
      UnpausedChildRunsToEnd(arrivals[1..], gen, pos + 1);
      assert [gen.items[pos]] + gen.items[pos + 1..] == gen.items[pos..];
    }
  }

  /** Pop the child's stdin queue, updating the flags; stop at `quit\n`. */
  method DrainControl(batch: seq<Entry>, pause0: bool) returns (pause: bool, quit: bool)
    ensures Flags(pause, quit) == Scan(batch, pause0)
  {
    var queue := batch;
    pause, quit := pause0, false;
    while |queue| != 0
      invariant Scan(batch, pause0) == Scan(queue, pause)
      invariant !quit
      decreases |queue|
    {
      var e := queue[0];
      queue := queue[1..];
      if e.x == Str(PauseLine) {
        pause := true;
      } else if e.x == Str(UnpauseLine) {
        pause := false;
      } else if e.x == Str(QuitLine) {
        quit := true;
        break;
      }
    }
  }

  /**
   * The child's `__main__` loop over a generator result: each iteration drains
   * the control queue (the batch that arrived), then either quits, sleeps while
   * paused, or advances the generator and sends the item on stdout.
   */
  method ChildLoop(arrivals: seq<seq<Entry>>, gen: Gen, pickle: Pickler) returns (log: ChildLog, stdout: Bytes)
    ensures log == ChildRun(arrivals, gen, 0, false)
    ensures stdout == SendAll(log.sent, pickle)
  {
    var pause, quit := false, false;
    var pos := 0;
    var sent: seq<Obj> := [];
    stdout := [];
    var k := 0;
    while k < |arrivals|
      invariant 0 <= k <= |arrivals| && 0 <= pos <= |gen.items|
      invariant ChildRun(arrivals, gen, 0, false).sent == sent + ChildRun(arrivals[k..], gen, pos, pause).sent
      invariant ChildRun(arrivals, gen, 0, false).end == ChildRun(arrivals[k..], gen, pos, pause).end
      invariant stdout == SendAll(sent, pickle)
      decreases |arrivals| - k
    {
      assert arrivals[k..][0] == arrivals[k] && arrivals[k..][1..] == arrivals[k + 1..];
      pause, quit := DrainControl(arrivals[k], pause);
      if quit {
        log := ChildLog(sent, Quitted);
        return;
      }
      if pause {
        k := k + 1;
        continue;
      }
      if pos == |gen.items| {
        log := ChildLog(sent, if gen.failure.Some? then GenFailed(gen.failure.value) else Exhausted);
        return;
      }
      var rr := gen.items[pos];
      pos := pos + 1;
      SendAllAppend(sent, rr, pickle);
      Regroup(sent, [rr], ChildRun(arrivals[k + 1..], gen, pos, pause).sent);
      sent := sent + [rr];
      stdout := stdout + Send(rr, false, pickle);
      k := k + 1;
    }
    log := ChildLog(sent, Waiting);
  }
}

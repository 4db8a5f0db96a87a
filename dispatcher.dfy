/**
 * The serving half of the RPC protocol, `RpcClient` in external/rpcss.py: a
 * loop that takes tokens off the inbound queue and runs one handler per
 * token, with the settings `Interval`, `Timeout`, `Pause`, `Stop` and the
 * generator `StepGen` as its state.
 *
 * The inbound queue is a schedule of events. Each event is what one
 * `Queue.get` observes: a value, or a wait that ended with the queue empty.
 * A schedule that runs out ends the model's run (`Horizon`).
 */
module Dispatcher {
  import opened Options
  import opened Tokens

  /** What one poll of the inbound queue sees. */
  datatype Event = Msg(value: Value) | Tick

  /** Why a handler or the loop ends other than by `Stop` or the idle timeout. */
  datatype Halt = Horizon | Crashed(reason: string)

  /** The result of one `Queue.get`: a value, `Queue.Empty`, or an exception or the end of the schedule. */
  datatype Polled = Got(value: Value) | Empty | Fault(why: Halt)

  const UnexpectedToken := "recieved unexpected token"
  const UnknownToken := "KeyError: no handler for this token"
  const NotARequest := "cannot unpack the request into f, args, kwargs"
  const Unpicklable := "a generator cannot be pickled"
  const NotAnIterator := "TypeError: object is not an iterator"
  const NotANumber := "TypeError: timeout is not a number"
  const NegativeWait := "ValueError: 'timeout' must be a non-negative number"
  const NoIdleLimit := "Timeout / Interval cannot be computed"

  /** `_readWithPass(block=True, timeout)`: `Queue.get`, then unpickling. */
  function PollQueue(q: seq<Event>, timeout: Value): (r: (Polled, seq<Event>))
    ensures |r.1| <= |q|
    ensures r.0.Got? || r.0.Empty? ==> |r.1| < |q|
    ensures timeout.NoneValue? ==> r.0 == Fault(Horizon) || r.0.Got?
    ensures r.0 == Fault(Horizon) ==> r.1 == []
    decreases |q|
  {
    if timeout.NoneValue? then
      if q == [] then (Fault(Horizon), [])
      else if q[0].Tick? then PollQueue(q[1..], timeout)
      else (Got(q[0].value), q[1..])
    else
      match AsNumber(timeout)
      case None => (Fault(Crashed(NotANumber)), q)
      case Some(x) =>
        if x < 0.0 then (Fault(Crashed(NegativeWait)), q)
        else if q == [] then (Fault(Horizon), [])
        else if q[0].Tick? then (Empty, q[1..])
        else (Got(q[0].value), q[1..])
  }

  /** `_read(block=True, timeout)`: polls until something other than `Tpass` arrives. */
  function ReadTimed(q: seq<Event>, timeout: Value): (r: (Polled, seq<Event>))
    ensures |r.1| <= |q|
    ensures r.0.Got? || r.0.Empty? ==> |r.1| < |q|
    ensures r.0.Got? ==> !TokenEq(r.0.value, Tpass)
    ensures timeout.NoneValue? ==> r.0 == Fault(Horizon) || r.0.Got?
    ensures r.0 == Fault(Horizon) ==> r.1 == []
    decreases |q|
  {
    var (p, q1) := PollQueue(q, timeout);
    if p.Got? && TokenEq(p.value, Tpass) then ReadTimed(q1, timeout) else (p, q1)
  }

  /** `_read()`: no timeout, so it waits until a value other than `Tpass` arrives. */
  function ReadBlocking(q: seq<Event>): (r: (Polled, seq<Event>))
  {
    ReadTimed(q, NoneValue)
  }

  /** `b` is what is left of `q` after reading from its front. */
  predicate IsSuffix(b: seq<Event>, q: seq<Event>) {
    |b| <= |q| && b == q[|q| - |b|..]
  }

  lemma SuffixTransitive(c: seq<Event>, b: seq<Event>, q: seq<Event>)
    requires IsSuffix(c, b) && IsSuffix(b, q)
    ensures IsSuffix(c, q)
  {
    assert q[|q| - |b|..][|b| - |c|..] == q[|q| - |c|..];
  }

  /** The events a read took off the front of `q`, leaving `rest`. */
  function Consumed(q: seq<Event>, rest: seq<Event>): seq<Event>
    requires |rest| <= |q|
  {
    q[..|q| - |rest|]
  }

  /** A poll takes events off the front of the queue; a value it returns is the event it took. */
  lemma {:induction false} PollQueueTakesFront(q: seq<Event>, timeout: Value)
    ensures IsSuffix(PollQueue(q, timeout).1, q)
    ensures PollQueue(q, timeout).0.Got? ==>
      Msg(PollQueue(q, timeout).0.value) in Consumed(q, PollQueue(q, timeout).1)
    decreases |q|
  {
    if timeout.NoneValue? && q != [] && q[0].Tick? {
      PollQueueTakesFront(q[1..], timeout);
      SuffixTransitive(PollQueue(q, timeout).1, q[1..], q);
      var r := PollQueue(q, timeout);
      if r.0.Got? {
        assert Consumed(q[1..], r.1) == Consumed(q, r.1)[1..];
      }
    } else if q != [] && PollQueue(q, timeout).0.Got? {
      assert Consumed(q, q[1..]) == [q[0]];
    }
  }

  /** Reading takes events off the front of the queue; a value it returns is an event it took. */
  lemma {:induction false} ReadTimedTakesFront(q: seq<Event>, timeout: Value)
    ensures IsSuffix(ReadTimed(q, timeout).1, q)
    ensures ReadTimed(q, timeout).0.Got? ==>
      Msg(ReadTimed(q, timeout).0.value) in Consumed(q, ReadTimed(q, timeout).1)
    decreases |q|
  {
    var (p, q1) := PollQueue(q, timeout);
    PollQueueTakesFront(q, timeout);
    if p.Got? && TokenEq(p.value, Tpass) {
      ReadTimedTakesFront(q1, timeout);
      var r := ReadTimed(q1, timeout);
      SuffixTransitive(r.1, q1, q);
      if r.0.Got? {
        assert Consumed(q1, r.1) == Consumed(q, r.1)[|q| - |q1|..];
      }
    }
  }

  /** `_read()` either delivers the first value other than `Tpass` or waits past the end of the schedule. */
  lemma {:induction false} ReadBlockingDelivers(q: seq<Event>)
    ensures ReadBlocking(q).0.Got? || ReadBlocking(q) == (Fault(Horizon), [])
    ensures ReadBlocking(q).0.Got? <==> exists i :: 0 <= i < |q| && q[i].Msg? && q[i].value != Tpass
    decreases |q|
  {
    if q != [] {
      ReadBlockingDelivers(q[1..]);
      if q[0].Tick? || q[0].value == Tpass {
        assert ReadBlocking(q) == ReadBlocking(q[1..]);
        if exists i :: 0 <= i < |q| && q[i].Msg? && q[i].value != Tpass {
          var i :| 0 <= i < |q| && q[i].Msg? && q[i].value != Tpass;
          assert q[1..][i - 1] == q[i];
        }
        if exists i :: 0 <= i < |q[1..]| && q[1..][i].Msg? && q[1..][i].value != Tpass {
          var i :| 0 <= i < |q[1..]| && q[1..][i].Msg? && q[1..][i].value != Tpass;
          assert q[i + 1] == q[1..][i];
        }
      } else {
        assert q[0].Msg? && q[0].value != Tpass;
      }
    }
  }

  /** A generator's remaining course: the items still to come, then StopIteration or an exception. */
  datatype Iter = Iter(items: seq<Value>, failure: Option<string>) | NotIterator

  /** What one `next(r)` does. */
  datatype Step = Item(value: Value) | Exhausted | Failure(message: string)

  /** `next(g)`: the generator after it; a generator that has raised or stopped stays stopped. */
  function NextItem(g: Iter): (Step, Iter)
  {
    match g
    case NotIterator => (Failure(NotAnIterator), NotIterator)
    case Iter(items, failure) =>
      if items != [] then (Item(items[0]), Iter(items[1..], failure))
      else if failure.Some? then (Failure(failure.value), Iter([], None))
      else (Exhausted, g)
  }

  /** How `r = f(*args, **kwargs)` ends for `_run_call_iter` and `_run_call_step`. */
  datatype Start = StartRaised(message: string) | StartReturned(gen: Option<Iter>)

  /** The object `f` returns: a generator, None, or some other object that is not an iterator. */
  function StartCall(b: Behaviour): Start
  {
    match b
    case Raises(m) => StartRaised(m)
    case Yields(items, failure) => StartReturned(Some(Iter(items, failure)))
    case Returns(v) => StartReturned(if v.NoneValue? then None else Some(NotIterator))
  }

  /** The two values `_write_exception` sends. */
  function ExceptionReply(message: string): seq<Value>
  {
    [Texception, Exc(message)]
  }

  /** What `_run_call` writes for the request it read; None when the handler itself raises. */
  function CallResponse(data: Value): Option<seq<Value>>
  {
    match data
    case Request(Returns(v)) => Some([v])
    case Request(Raises(m)) => Some(ExceptionReply(m))
    case _ => None
  }

  /** Why `_run_call` raises on this request. */
  function CallFailure(data: Value): string
  {
    if data.Request? then Unpicklable else NotARequest
  }

  /** What `_run_next` writes, and the `StepGen` it leaves. */
  function NextReply(g: Option<Iter>): (seq<Value>, Option<Iter>)
  {
    match g
    case None => (ExceptionReply(NotAnIterator), None)
    case Some(it) =>
      var (s, rest) := NextItem(it);
      match s
      case Item(v) => ([v], Some(rest))
      case Exhausted => ([Tend], g)
      case Failure(m) => (ExceptionReply(m), None)
  }

  /**
   * `_run_next` clears `StepGen` exactly when it sends an exception, and
   * exhaustion sends `Tend` while keeping the generator.
   */
  lemma NextReplyClearsOnlyOnError(g: Option<Iter>)
    ensures NextReply(g).1.None? <==> |NextReply(g).0| == 2
    ensures NextReply(g).1.None? ==> NextReply(g).0[0] == Texception
    ensures NextReply(g).1.Some? ==> |NextReply(g).0| == 1
    ensures g == Some(Iter([], None)) ==> NextReply(g) == ([Tend], g)
  {
  }

  /** The values `n` consecutive `_run_next` calls send, and the `StepGen` they leave. */
  function Drain(g: Option<Iter>, n: nat): (seq<Value>, Option<Iter>)
    decreases n
  {
    if n == 0 then ([], g)
    else
      var (reply, g1) := NextReply(g);
      var (more, g2) := Drain(g1, n - 1);
      (reply + more, g2)
  }

  /** Stepping through a generator that stops sends each item, then `Tend`, and keeps the spent generator. */
  lemma {:induction false} DrainEndedGenerator(items: seq<Value>)
    ensures Drain(Some(Iter(items, None)), |items| + 1) == (items + [Tend], Some(Iter([], None)))
    decreases |items|
  {
    var g := Some(Iter(items, None));
    if items != [] {
      var g1 := Some(Iter(items[1..], None));
      assert NextReply(g) == ([items[0]], g1);
      DrainEndedGenerator(items[1..]);
      assert Drain(g, |items| + 1) == ([items[0]] + Drain(g1, |items|).0, Drain(g1, |items|).1);
      assert [items[0]] + (items[1..] + [Tend]) == items + [Tend];
    } else {
      assert NextReply(g) == ([Tend], g);
      assert Drain(g, 0) == ([], g);
      assert Drain(g, 1) == ([Tend] + Drain(g, 0).0, Drain(g, 0).1);
      assert items + [Tend] == [Tend] == [Tend] + [];
      assert Drain(g, |items| + 1) == ([Tend], g);
    }
  }

  /** Stepping through a generator that raises sends each item, then the exception, and clears `StepGen`. */
  lemma {:induction false} DrainFailingGenerator(items: seq<Value>, m: string)
    ensures Drain(Some(Iter(items, Some(m))), |items| + 1) == (items + ExceptionReply(m), None)
    decreases |items|
  {
    var g := Some(Iter(items, Some(m)));
    if items != [] {
      var g1 := Some(Iter(items[1..], Some(m)));
      assert NextReply(g) == ([items[0]], g1);
      DrainFailingGenerator(items[1..], m);
      assert Drain(g, |items| + 1) == ([items[0]] + Drain(g1, |items|).0, Drain(g1, |items|).1);
      assert [items[0]] + (items[1..] + ExceptionReply(m)) == items + ExceptionReply(m);
    } else {
      assert NextReply(g) == (ExceptionReply(m), None);
      assert Drain(None, 0) == ([], None);
      assert Drain(g, 1) == (ExceptionReply(m) + Drain(None, 0).0, Drain(None, 0).1);
      assert items + ExceptionReply(m) == ExceptionReply(m) == ExceptionReply(m) + [];
      assert Drain(g, |items| + 1) == (ExceptionReply(m), None);
    }
  }

  /** `Pause` and `Stop`, the settings `_call_iter_handleInput` changes. */
  datatype Control = Control(pause: Value, stop: bool)

  /** The wait of `_call_iter_handleInput`: `Interval` while paused, otherwise 0. */
  function InputWait(c: Control, interval: Value): Value
  {
    if Truthy(c.pause) then interval else Num(0.0)
  }

  /**
   * `_call_iter_handleInput`: runs `Tpause` and `Tstop` until a wait finds the
   * queue empty; any other token raises.
   */
  function HandleInput(q: seq<Event>, c: Control, interval: Value): (r: (Option<Halt>, Control, seq<Event>))
    ensures |r.2| <= |q|
    ensures r.0.None? ==> |r.2| < |q|
    ensures r.0 == Some(Horizon) ==> r.2 == []
    decreases |q|
  {
    var (p, q1) := ReadTimed(q, InputWait(c, interval));
    match p
    case Fault(why) => (Some(why), c, q1)
    case Empty => (None, c, q1)
    case Got(t) =>
      if TokenEq(t, Tpause) then
        var (v, q2) := ReadBlocking(q1);
        match v
        case Got(x) => HandleInput(q2, c.(pause := x), interval)
        case Fault(why) => (Some(why), c, q2)
      else if TokenEq(t, Tstop) then HandleInput(q1, c.(stop := true), interval)
      else (Some(Crashed(UnexpectedToken)), c, q1)
  }

  /** Any token mid-stream other than `Tpause` or `Tstop` raises. */
  lemma HandleInputRejects(q: seq<Event>, c: Control, interval: Value)
    requires ReadTimed(q, InputWait(c, interval)).0.Got?
    requires !TokenEq(ReadTimed(q, InputWait(c, interval)).0.value, Tpause)
    requires !TokenEq(ReadTimed(q, InputWait(c, interval)).0.value, Tstop)
    ensures HandleInput(q, c, interval).0 == Some(Crashed(UnexpectedToken))
  {
  }

  /**
   * What `_call_iter_handleInput` changes comes from the events it took: `Pause`
   * is the old value or one that arrived, and `Stop` is only set by a `Tstop` that
   * arrived (never cleared).
   */
  lemma {:induction false} HandleInputSettingsArrive(q: seq<Event>, c: Control, interval: Value)
    ensures IsSuffix(HandleInput(q, c, interval).2, q)
    ensures var r := HandleInput(q, c, interval);
      r.1.pause == c.pause || Msg(r.1.pause) in Consumed(q, r.2)
    ensures var r := HandleInput(q, c, interval);
      r.1.stop ==> c.stop || Msg(Tstop) in Consumed(q, r.2)
    ensures c.stop ==> HandleInput(q, c, interval).1.stop
    decreases |q|
  {
    var r := HandleInput(q, c, interval);
    var (p, q1) := ReadTimed(q, InputWait(c, interval));
    ReadTimedTakesFront(q, InputWait(c, interval));
    if p.Got? {
      var t := p.value;
      if TokenEq(t, Tpause) {
        var (v, q2) := ReadBlocking(q1);
        ReadTimedTakesFront(q1, NoneValue);
        SuffixTransitive(q2, q1, q);
        if v.Got? {
          HandleInputSettingsArrive(q2, c.(pause := v.value), interval);
          SuffixTransitive(r.2, q2, q);
          ConsumedGrows(q, q2, r.2);
          ConsumedGrows(q, q1, q2);
          if r.1.pause != v.value {
            assert Msg(r.1.pause) in Consumed(q2, r.2);
          } else {
            assert Msg(v.value) in Consumed(q1, q2);
          }
        }
      } else if TokenEq(t, Tstop) {
        HandleInputSettingsArrive(q1, c.(stop := true), interval);
        SuffixTransitive(r.2, q1, q);
        ConsumedGrows(q, q1, r.2);
        TokenEqIsIdentity(t, Tstop);
        assert Msg(Tstop) in Consumed(q, q1);
      }
    }
  }

  /** What two reads in a row took is what the first took followed by what the second took. */
  lemma ConsumedGrows(q: seq<Event>, b: seq<Event>, c: seq<Event>)
    requires IsSuffix(b, q) && IsSuffix(c, b)
    ensures IsSuffix(c, q)
    ensures Consumed(q, c) == Consumed(q, b) + Consumed(b, c)
    ensures forall e :: e in Consumed(q, b) || e in Consumed(b, c) ==> e in Consumed(q, c)
  {
    SuffixTransitive(c, b, q);
    assert q == Consumed(q, b) + b;
    assert b == Consumed(b, c) + c;
    assert q == Consumed(q, b) + Consumed(b, c) + c;
  }

  /** No value that arrives is false, so nothing can clear `Pause`. */
  predicate NoFalsyMessage(q: seq<Event>) {
    forall i :: 0 <= i < |q| ==> q[i].Msg? ==> Truthy(q[i].value)
  }

  /** While no false value arrives, `_call_iter_handleInput` leaves a set `Pause` set. */
  lemma HandleInputKeepsPause(q: seq<Event>, c: Control, interval: Value)
    requires Truthy(c.pause) && NoFalsyMessage(q)
    ensures Truthy(HandleInput(q, c, interval).1.pause)
    ensures NoFalsyMessage(HandleInput(q, c, interval).2)
  {
    HandleInputSettingsArrive(q, c, interval);
    var r := HandleInput(q, c, interval);
    assert q == Consumed(q, r.2) + r.2;
    forall i | 0 <= i < |r.2| && r.2[i].Msg?
      ensures Truthy(r.2[i].value)
    {
      assert r.2[i] == q[|q| - |r.2| + i];
    }
  }

  /** The limit of the idle counter, `Timeout / Interval`; None when Python raises. */
  function IdleLimit(timeout: Value, interval: Value): Option<real>
  {
    match (AsNumber(timeout), AsNumber(interval))
    case (Some(t), Some(i)) => if i == 0.0 then None else Some(t / i)
    case _ => None
  }

  /** Python 2 `a / b` on two ints: the quotient rounded down (Dafny's `/` rounds down for a positive divisor). */
  function FloorDiv(a: int, b: int): int
    requires b != 0
  {
    if b > 0 then a / b else (-a) / (-b)
  }

  /**
   * With integer `Timeout` and `Interval` Python 2 divides rounding down, and
   * comparing that with the integer counter is the same as comparing the exact
   * quotient, which is what IdleLimit computes.
   */
  lemma FloorDivComparison(a: int, b: int, i: int)
    requires b != 0
    ensures FloorDiv(a, b) < i <==> (a as real) / (b as real) < i as real
  {
    var a', b' := if b > 0 then a else -a, if b > 0 then b else -b;
    var f := FloorDiv(a, b);
    assert f == a' / b';
    assert (a as real) / (b as real) == (a' as real) / (b' as real);
    assert a' == b' * f + a' % b' && 0 <= a' % b' < b';
    RealDivBetween(a' as real, b' as real, f as real);
    if f < i {
      assert (f + 1) as real <= i as real;
    }
  }

  lemma DivBelow(a: real, b: real, c: real)
    requires b > 0.0 && a < b * c
    ensures a / b < c
  {
    var d := a / b;
    assert d * b == a;
    var e := c - d;
    assert e * b == c * b - d * b;
    assert e * b > 0.0;
  }

  lemma DivAbove(a: real, b: real, c: real)
    requires b > 0.0 && b * c <= a
    ensures c <= a / b
  {
    var d := a / b;
    assert d * b == a;
  }

  lemma RealDivBetween(a: real, b: real, f: real)
    requires b > 0.0 && b * f <= a < b * (f + 1.0)
    ensures f <= a / b < f + 1.0
  {
    DivBelow(a, b, f + 1.0);
    DivAbove(a, b, f);
  }

  /** The number of polls at the end of `polls` that found the queue empty. */
  function TrailingEmpties(polls: seq<Polled>): nat
  {
    if polls == [] || !polls[|polls| - 1].Empty? then 0 else TrailingEmpties(polls[..|polls| - 1]) + 1
  }

  /** How `run` ends. */
  datatype RunEnd = Stopped | TimedOut | Halted(why: Halt)

  /**
   * How `_run_call_iter` ends: the generator stopped or raised, `Stop` arrived
   * mid-stream, the callable raised before any stream began, or the handler
   * itself raised.
   */
  datatype IterEnd = Finished | GeneratorFailed | StoppedMidStream | CallRaised | Aborted(why: Halt)

  /** The exception `_run_call_iter` passes on to `run`, if any. */
  function HaltOf(e: IterEnd): Option<Halt>
  {
    if e.Aborted? then Some(e.why) else None
  }

  /** The items a generator yields before it stops or raises. */
  function ItemsOf(g: Iter): seq<Value>
  {
    if g.Iter? then g.items else []
  }

  /** The exception a generator ends with, if it does not simply stop. */
  function FailureOf(g: Iter): Option<string>
  {
    if g.Iter? then g.failure else Some(NotAnIterator)
  }

  /** The fields of `RpcClient` its handlers read and write, with the inbound schedule; what it writes is kept apart. */
  datatype Server = Server(interval: Value, timeout: Value, pause: Value, stop: bool, stepGen: Option<Iter>, inbox: seq<Event>)

  /** What `_run_call_iter` did: how it ended, the fields it left and the values it wrote. */
  datatype IterRun = IterRun(end: IterEnd, after: Server, out: seq<Value>)

  /** What one handler did: the exception it raised, if any, the fields it left and the values it wrote. */
  datatype Handled = Handled(halt: Option<Halt>, after: Server, out: seq<Value>)

  /** What `run` did: how it ended, the fields it left, the values it wrote and what each of its polls saw. */
  datatype RunResult = RunResult(end: RunEnd, after: Server, out: seq<Value>, polls: seq<Polled>)

  /** Why a blocking read failed; it never reports the queue empty. */
  function Why(p: Polled): Halt
  {
    if p.Fault? then p.why else Horizon
  }

  /** The `while True` loop of `_run_call_iter` over the generator `g`. */
  function IterLoop(s: Server, g: Iter): (r: IterRun)
    ensures |r.after.inbox| <= |s.inbox|
    ensures r.after.interval == s.interval && r.after.timeout == s.timeout && r.after.stepGen == s.stepGen
    ensures r.end == Aborted(Horizon) ==> r.after.inbox == []
    decreases |s.inbox|
  {
    var (h, c, q) := HandleInput(s.inbox, Control(s.pause, s.stop), s.interval);
    var s1 := s.(pause := c.pause, stop := c.stop, inbox := q);
    if h.Some? then IterRun(Aborted(h.value), s1, [])
    else if c.stop then IterRun(StoppedMidStream, s1, [])
    else if Truthy(c.pause) then IterLoop(s1, g)
    else
      var (step, g1) := NextItem(g);
      match step
      case Exhausted => IterRun(Finished, s1, [Tend])
      case Failure(m) => IterRun(GeneratorFailed, s1, ExceptionReply(m))
      case Item(v) =>
        var r := IterLoop(s1, g1);
        IterRun(r.end, r.after, [v] + r.out)
  }

  /** `_run_call_iter`: read the request, call it, and stream what it returns. */
  function CallIterRun(s: Server): (r: IterRun)
    ensures |r.after.inbox| <= |s.inbox|
    ensures r.after.interval == s.interval && r.after.timeout == s.timeout && r.after.stepGen == s.stepGen
    ensures r.end == Aborted(Horizon) ==> r.after.inbox == []
  {
    var (p, q) := ReadBlocking(s.inbox);
    var s1 := s.(inbox := q);
    if !p.Got? then IterRun(Aborted(Why(p)), s1, [])
    else if !p.value.Request? then IterRun(Aborted(Crashed(NotARequest)), s1, [])
    else match StartCall(p.value.behaviour)
      case StartRaised(m) => IterRun(CallRaised, s1, ExceptionReply(m))
      case StartReturned(g) => IterLoop(s1, g.GetOr(NotIterator))
  }

  /** `RpcClient._Runs[t](self)`: the handler the table holds for `t`, run on the fields `s`; a value without one raises KeyError. */
  function Dispatched(t: Value, s: Server): (r: Handled)
    ensures |r.after.inbox| <= |s.inbox|
    ensures r.halt == Some(Horizon) ==> r.after.inbox == []
  {
    if !IsT(t) then Handled(Some(Crashed(UnknownToken)), s, [])
    else match t.id
      case Pass => Handled(None, s, [])
      case Interval =>
        var (p, q) := ReadBlocking(s.inbox);
        if p.Got? then Handled(None, s.(interval := p.value, inbox := q), []) else Handled(Some(Why(p)), s.(inbox := q), [])
      case Timeout =>
        var (p, q) := ReadBlocking(s.inbox);
        if p.Got? then Handled(None, s.(timeout := p.value, inbox := q), []) else Handled(Some(Why(p)), s.(inbox := q), [])
      case Pause =>
        var (p, q) := ReadBlocking(s.inbox);
        if p.Got? then Handled(None, s.(pause := p.value, inbox := q), []) else Handled(Some(Why(p)), s.(inbox := q), [])
      case Call =>
        var (p, q) := ReadBlocking(s.inbox);
        if !p.Got? then Handled(Some(Why(p)), s.(inbox := q), [])
        else if CallResponse(p.value).Some? then Handled(None, s.(inbox := q), CallResponse(p.value).value)
        else Handled(Some(Crashed(CallFailure(p.value))), s.(inbox := q), [])
      case CallIter =>
        var r := CallIterRun(s);
        Handled(HaltOf(r.end), r.after, r.out)
      case CallStep =>
        var (p, q) := ReadBlocking(s.inbox);
        if !p.Got? then Handled(Some(Why(p)), s.(inbox := q), [])
        else if !p.value.Request? then Handled(Some(Crashed(NotARequest)), s.(inbox := q), [])
        else (match StartCall(p.value.behaviour)
          case StartRaised(m) => Handled(None, s.(inbox := q), ExceptionReply(m))
          case StartReturned(g) => Handled(None, s.(stepGen := g, inbox := q), [Tnext]))
      case Next =>
        var (reply, g) := NextReply(s.stepGen);
        Handled(None, s.(stepGen := g), reply)
      case Stop => Handled(None, s.(stop := true), [])
      case _ => Handled(Some(Crashed(UnknownToken)), s, [])
  }

  /**
   * The loop of `run` from the fields `s`, after the polls `polls`. The idle
   * counter `i` is `TrailingEmpties(polls)`: the empty polls since the last
   * value, `Tpass` included, arrived.
   */
  function RunLoop(s: Server, polls: seq<Polled>): (r: RunResult)
    ensures r.end == Halted(Horizon) ==> r.after.inbox == []
    ensures r.end == Stopped ==> r.after.stop
    decreases |s.inbox|
  {
    if s.stop then RunResult(Stopped, s, [], polls)
    else
      var (p, q) := PollQueue(s.inbox, s.interval);
      var s1 := s.(inbox := q);
      var polls1 := polls + [p];
      match p
      case Fault(why) => RunResult(Halted(why), s1, [], polls1)
      case Empty =>
        var limit := IdleLimit(s.timeout, s.interval);
        if limit.None? then RunResult(Halted(Crashed(NoIdleLimit)), s1, [], polls1)
        else if limit.value < TrailingEmpties(polls) as real && s.stepGen.None? then RunResult(TimedOut, s1, [], polls1)
        else RunLoop(s1, polls1)
      case Got(t) =>
        var r := Dispatched(t, s1);
        if r.halt.Some? then RunResult(Halted(r.halt.value), r.after, r.out, polls1)
        else
          var r2 := RunLoop(r.after, polls1);
          RunResult(r2.end, r2.after, r.out + r2.out, r2.polls)
  }

  /** A schedule of `n` waits that find the queue empty, with no value arriving. */
  function Ticks(n: nat): (r: seq<Event>)
    ensures |r| == n
  {
    seq(n, _ => Tick)
  }

  /**
   * What `_run_call_iter` writes for the generator `g`: all its items and
   * `Tend` when it stops, all its items and the exception when it raises, and
   * only a prefix of its items when `Stop` or an exception ends the stream early.
   */
  predicate StreamsItems(r: IterRun, g: Iter)
  {
    && (r.end == Finished ==> FailureOf(g).None? && r.out == ItemsOf(g) + [Tend])
    && (r.end == GeneratorFailed ==> FailureOf(g).Some? && r.out == ItemsOf(g) + ExceptionReply(FailureOf(g).value))
    && (r.end == StoppedMidStream ==> r.after.stop)
    && (r.end.StoppedMidStream? || r.end.Aborted? ==> |r.out| <= |ItemsOf(g)| && r.out == ItemsOf(g)[..|r.out|])
    && !r.end.CallRaised?
  }

  /** An item sent before the rest of a stream makes it a stream of the generator that yields that item first. */
  lemma StreamsItemFirst(r: IterRun, v: Value, g: Iter, g1: Iter)
    requires NextItem(g) == (Item(v), g1) && StreamsItems(r, g1)
    ensures StreamsItems(IterRun(r.end, r.after, [v] + r.out), g)
  {
    assert ItemsOf(g) == [v] + ItemsOf(g1) && FailureOf(g1) == FailureOf(g);
    if r.end == Finished {
      assert [v] + (ItemsOf(g1) + [Tend]) == ItemsOf(g) + [Tend];
    } else if r.end == GeneratorFailed {
      assert [v] + (ItemsOf(g1) + ExceptionReply(FailureOf(g).value)) == ItemsOf(g) + ExceptionReply(FailureOf(g).value);
    } else if r.end.StoppedMidStream? || r.end.Aborted? {
      assert [v] + ItemsOf(g1)[..|r.out|] == ItemsOf(g)[..|r.out| + 1];
    }
  }

  /** The loop of `_run_call_iter` writes what StreamsItems says. */
  lemma {:induction false} IterLoopOutcome(s: Server, g: Iter)
    ensures StreamsItems(IterLoop(s, g), g)
    decreases |s.inbox|
  {
    var (h, c, q) := HandleInput(s.inbox, Control(s.pause, s.stop), s.interval);
    var s1 := s.(pause := c.pause, stop := c.stop, inbox := q);
    if h.None? && !c.stop {
      if Truthy(c.pause) {
        IterLoopOutcome(s1, g);
      } else {
        var (step, g1) := NextItem(g);
        if step.Item? {
          IterLoopOutcome(s1, g1);
          StreamsItemFirst(IterLoop(s1, g1), step.value, g, g1);
        }
      }
    }
  }

  /** `_run_call_iter` stops mid-stream only when `Stop` was already set or a `Tstop` arrived during the stream. */
  lemma {:induction false} IterLoopStopArrived(s: Server, g: Iter)
    ensures IsSuffix(IterLoop(s, g).after.inbox, s.inbox)
    ensures var r := IterLoop(s, g);
      r.end == StoppedMidStream ==> s.stop || Msg(Tstop) in Consumed(s.inbox, r.after.inbox)
    decreases |s.inbox|
  {
    var (h, c, q) := HandleInput(s.inbox, Control(s.pause, s.stop), s.interval);
    var s1 := s.(pause := c.pause, stop := c.stop, inbox := q);
    HandleInputSettingsArrive(s.inbox, Control(s.pause, s.stop), s.interval);
    if h.None? && !c.stop {
      var g1 := if Truthy(c.pause) then g else NextItem(g).1;
      if Truthy(c.pause) || NextItem(g).0.Item? {
        IterLoopStopArrived(s1, g1);
        var r := IterLoop(s1, g1);
        ConsumedGrows(s.inbox, q, r.after.inbox);
      }
    }
  }

  /**
   * With no value arriving, no pause and no `Stop`, `_run_call_iter` sends
   * every item of the generator and then `Tend` or the exception it ended
   * with, taking one empty wait per item and one more for the end.
   */
  lemma {:induction false} UninterruptedStream(s: Server, g: Iter, n: nat)
    requires s.inbox == Ticks(n) && n > |ItemsOf(g)| && !Truthy(s.pause) && !s.stop
    ensures IterLoop(s, g) == IterRun(if FailureOf(g).None? then Finished else GeneratorFailed,
      s.(inbox := Ticks(n - |ItemsOf(g)| - 1)),
      ItemsOf(g) + (if FailureOf(g).None? then [Tend] else ExceptionReply(FailureOf(g).value)))
    decreases n
  {
    var c := Control(s.pause, s.stop);
    assert Ticks(n)[1..] == Ticks(n - 1);
    assert InputWait(c, s.interval) == Num(0.0);
    assert PollQueue(Ticks(n), Num(0.0)) == (Empty, Ticks(n - 1));
    assert HandleInput(Ticks(n), c, s.interval) == (None, c, Ticks(n - 1));
    var s1 := s.(inbox := Ticks(n - 1));
    var (step, g1) := NextItem(g);
    if step.Item? {
      assert ItemsOf(g) == [step.value] + ItemsOf(g1) && FailureOf(g1) == FailureOf(g);
      UninterruptedStream(s1, g1, n - 1);
      assert [step.value] + (ItemsOf(g1) + (if FailureOf(g).None? then [Tend] else ExceptionReply(FailureOf(g).value)))
        == ItemsOf(g) + (if FailureOf(g).None? then [Tend] else ExceptionReply(FailureOf(g).value));
    }
  }

  /** While `Pause` is set and no false value arrives, `_run_call_iter` sends nothing and can only end by `Stop` or an exception. */
  lemma {:induction false} PausedStreamSendsNothing(s: Server, g: Iter)
    requires Truthy(s.pause) && NoFalsyMessage(s.inbox)
    ensures var r := IterLoop(s, g); r.out == [] && (r.end.StoppedMidStream? || r.end.Aborted?)
    decreases |s.inbox|
  {
    var c := Control(s.pause, s.stop);
    HandleInputKeepsPause(s.inbox, c, s.interval);
    var (h, c1, q) := HandleInput(s.inbox, c, s.interval);
    if h.None? && !c1.stop {
      PausedStreamSendsNothing(s.(pause := c1.pause, stop := c1.stop, inbox := q), g);
    }
  }

  /**
   * `_run_call_iter` as a whole: a failed read or a value that is not a request
   * raises with nothing written; a callable that raises sends the exception
   * (`CallRaised`); otherwise the stream of what it returned is written as
   * IterLoopOutcome says.
   */
  lemma CallIterReplies(s: Server)
    ensures var (p, q) := ReadBlocking(s.inbox); var r := CallIterRun(s);
      && (p.Fault? ==> r.end == Aborted(p.why) && r.out == [])
      && (p.Got? && !p.value.Request? ==> r.end == Aborted(Crashed(NotARequest)) && r.out == [])
      && (r.end == CallRaised <==> p.Got? && p.value.Request? && p.value.behaviour.Raises?)
      && (r.end == CallRaised ==> r.out == ExceptionReply(p.value.behaviour.message))
      && (p.Got? && p.value.Request? && !p.value.behaviour.Raises? ==>
        StreamsItems(r, StartCall(p.value.behaviour).gen.GetOr(NotIterator)))
  {
    var (p, q) := ReadBlocking(s.inbox);
    if p.Got? && p.value.Request? && !p.value.behaviour.Raises? {
      IterLoopOutcome(s.(inbox := q), StartCall(p.value.behaviour).gen.GetOr(NotIterator));
    }
  }

  /**
   * What each handler may change: a setting only by its own token, `Pause` and
   * `Stop` also by a stream, `StepGen` only by `Tcall_step` and `Tnext`, and
   * only the calling tokens write. `Tpass` does nothing, and a value that is
   * not a handled token raises KeyError and changes nothing.
   */
  lemma DispatchedChangesOnly(t: Value, s: Server)
    ensures var r := Dispatched(t, s);
      && (r.after.interval != s.interval ==> t == Tinterval)
      && (r.after.timeout != s.timeout ==> t == Ttimeout)
      && (r.after.pause != s.pause ==> t == Tpause || t == Tcall_iter)
      && (r.after.stop != s.stop ==> t == Tstop || t == Tcall_iter)
      && (r.after.stepGen != s.stepGen ==> t == Tcall_step || t == Tnext)
      && (r.out != [] ==> t == Tcall || t == Tcall_iter || t == Tcall_step || t == Tnext)
      && (t == Tpass ==> r == Handled(None, s, []))
      && (!IsT(t) || t.id.Named? || t == Tend || t == Texception ==> r == Handled(Some(Crashed(UnknownToken)), s, []))
  {
  }

  /**
   * `r` ends TimedOut only on an empty poll with no step generator active,
   * when `Timeout / Interval` is below the idle counter, which counts the empty
   * polls before that one since the last value arrived.
   */
  predicate TimesOutWhenIdle(r: RunResult)
  {
    r.end == TimedOut ==>
      && r.after.stepGen.None? && r.polls != [] && r.polls[|r.polls| - 1] == Empty
      && IdleLimit(r.after.timeout, r.after.interval).Some?
      && IdleLimit(r.after.timeout, r.after.interval).value < (TrailingEmpties(r.polls) - 1) as real
  }

  /** `b` begins with `a`. */
  predicate Extends(b: seq<Polled>, a: seq<Polled>)
  {
    |a| <= |b| && b[..|a|] == a
  }

  lemma ExtendsOfSnoc(c: seq<Polled>, a: seq<Polled>, p: Polled)
    requires Extends(c, a + [p])
    ensures Extends(c, a)
  {
    assert c[..|a|] == c[..|a| + 1][..|a|];
  }

  /** `run` times out as TimesOutWhenIdle says, and its log extends the polls it started with. */
  lemma {:induction false} RunLoopTimedOut(s: Server, polls: seq<Polled>)
    ensures Extends(RunLoop(s, polls).polls, polls)
    ensures TimesOutWhenIdle(RunLoop(s, polls))
    decreases |s.inbox|
  {
    if !s.stop {
      var (p, q) := PollQueue(s.inbox, s.interval);
      var polls1 := polls + [p];
      assert polls1[..|polls|] == polls;
      if p.Empty? {
        assert TrailingEmpties(polls1) == TrailingEmpties(polls) + 1;
        var limit := IdleLimit(s.timeout, s.interval);
        if limit.Some? && !(limit.value < TrailingEmpties(polls) as real && s.stepGen.None?) {
          RunLoopTimedOut(s.(inbox := q), polls1);
          ExtendsOfSnoc(RunLoop(s.(inbox := q), polls1).polls, polls, p);
        }
      } else if p.Got? {
        var d := Dispatched(p.value, s.(inbox := q));
        if d.halt.None? {
          RunLoopTimedOut(d.after, polls1);
          ExtendsOfSnoc(RunLoop(d.after, polls1).polls, polls, p);
        }
      }
    }
  }

  /**
   * A server that receives nothing stops by itself: with no step generator,
   * numeric settings and a positive `Interval`, a schedule of empty waits long
   * enough for the idle counter to pass `Timeout / Interval` ends the run
   * TimedOut within `m + 1` more polls.
   */
  lemma {:induction false} IdleRunTimesOut(s: Server, polls: seq<Polled>, n: nat, m: nat)
    requires s.inbox == Ticks(n) && !s.stop && s.stepGen.None?
    requires AsNumber(s.interval).Some? && AsNumber(s.interval).value > 0.0 && AsNumber(s.timeout).Some?
    requires m < n && IdleLimit(s.timeout, s.interval).Some?
    requires IdleLimit(s.timeout, s.interval).value < (TrailingEmpties(polls) + m) as real
    ensures RunLoop(s, polls).end == TimedOut
    ensures |RunLoop(s, polls).polls| <= |polls| + m + 1
    decreases m
  {
    assert Ticks(n)[1..] == Ticks(n - 1);
    assert PollQueue(Ticks(n), s.interval) == (Empty, Ticks(n - 1));
    var polls1 := polls + [Empty];
    assert polls1[..|polls|] == polls;
    assert TrailingEmpties(polls1) == TrailingEmpties(polls) + 1;
    if !(IdleLimit(s.timeout, s.interval).value < TrailingEmpties(polls) as real) {
      IdleRunTimesOut(s.(inbox := Ticks(n - 1)), polls1, n - 1, m - 1);
    }
  }

  /** A `Tpass` is dispatched like any value: it does nothing, but resets the idle counter to 0. */
  lemma PassResetsIdle(s: Server, polls: seq<Polled>)
    requires !s.stop && s.inbox != [] && s.inbox[0] == Msg(Tpass)
    requires AsNumber(s.interval).Some? && AsNumber(s.interval).value >= 0.0
    ensures RunLoop(s, polls) == RunLoop(s.(inbox := s.inbox[1..]), polls + [Got(Tpass)])
    ensures TrailingEmpties(polls + [Got(Tpass)]) == 0
  {
  }

  const DefaultInterval := Num(0.33)
  const DefaultTimeout := Num(60.0)

  class RpcClient {
    var interval: Value
    var timeout: Value
    var pause: Value
    var stop: bool
    var stepGen: Option<Iter>
    /** The inbound queue's schedule. */
    var inbox: seq<Event>
    /** Everything written to the other side, in order. */
    var outbox: seq<Value>

    function State(): Server
      reads this
    {
      Server(interval, timeout, pause, stop, stepGen, inbox)
    }

    /** `RpcClient(io, interval, timeout)`. */
    constructor (events: seq<Event>, interval: Value, timeout: Value)
      ensures this.interval == interval && this.timeout == timeout
      ensures pause == Bool(false) && !stop && stepGen.None?
      ensures inbox == events && outbox == []
    {
      this.interval := interval;
      this.timeout := timeout;
      pause := Bool(false);
      stop := false;
      stepGen := None;
      inbox := events;
      outbox := [];
    }

    /** `_readWithPass(block=True, timeout)`. */
    method ReadWithPass(timeout: Value) returns (p: Polled)
      modifies this`inbox
      ensures (p, inbox) == PollQueue(old(inbox), timeout)
    {
      var q := inbox;
      while timeout.NoneValue? && q != [] && q[0].Tick?
        invariant PollQueue(q, timeout) == PollQueue(old(inbox), timeout)
        decreases |q|
      {
        q := q[1..];
      }
      var r := PollQueue(q, timeout);
      p, inbox := r.0, r.1;
    }

    /** `_read(block=True, timeout)`. */
    method ReadValue(timeout: Value) returns (p: Polled)
      modifies this`inbox
      ensures (p, inbox) == ReadTimed(old(inbox), timeout)
    {
      while true
        invariant ReadTimed(inbox, timeout) == ReadTimed(old(inbox), timeout)
        decreases |inbox|
      {
        ghost var q := inbox;
        p := ReadWithPass(timeout);
        if !(p.Got? && TokenEq(p.value, Tpass)) {
          return;
        }
      }
    }

    /** `_read()`. */
    method Read() returns (p: Polled)
      modifies this`inbox
      ensures (p, inbox) == ReadBlocking(old(inbox))
      ensures p.Got? || p == Fault(Horizon)
    {
      p := ReadValue(NoneValue);
    }

    method Write(x: Value)
      modifies this`outbox
      ensures outbox == old(outbox) + [x]
    {
      outbox := outbox + [x];
    }

    /** `_write_exception`. */
    method WriteException(message: string)
      modifies this`outbox
      ensures outbox == old(outbox) + ExceptionReply(message)
    {
      Write(Texception);
      Write(Exc(message));
    }

    /** `_run_setInterval`. */
    method RunSetInterval() returns (h: Option<Halt>)
      modifies this`inbox, this`interval
      ensures (if h.None? then Got(interval) else Fault(h.value), inbox) == ReadBlocking(old(inbox))
      ensures h.Some? ==> interval == old(interval)
    {
      var p := Read();
      match p
      case Got(v) => interval := v; h := None;
      case Fault(why) => h := Some(why);
    }

    /** `_run_setTimeout`. */
    method RunSetTimeout() returns (h: Option<Halt>)
      modifies this`inbox, this`timeout
      ensures (if h.None? then Got(timeout) else Fault(h.value), inbox) == ReadBlocking(old(inbox))
      ensures h.Some? ==> timeout == old(timeout)
    {
      var p := Read();
      match p
      case Got(v) => timeout := v; h := None;
      case Fault(why) => h := Some(why);
    }

    /** `_run_setPause`: `Pause` becomes the value read, whatever it was before. */
    method RunSetPause() returns (h: Option<Halt>)
      modifies this`inbox, this`pause
      ensures (if h.None? then Got(pause) else Fault(h.value), inbox) == ReadBlocking(old(inbox))
      ensures h.Some? ==> pause == old(pause)
    {
      var p := Read();
      match p
      case Got(v) => pause := v; h := None;
      case Fault(why) => h := Some(why);
    }

    /** `_run_stop`. */
    method RunStop()
      modifies this`stop
      ensures stop
    {
      stop := true;
    }

    /** `_run_call`: the result, or the exception `f` raised; the handler raises when the request is not a callable returning a picklable value. */
    method RunCall() returns (h: Option<Halt>)
      modifies this`inbox, this`outbox
      ensures inbox == ReadBlocking(old(inbox)).1
      ensures var p := ReadBlocking(old(inbox)).0;
        if p.Fault? then h == Some(p.why) && outbox == old(outbox)
        else if CallResponse(p.value).Some? then h.None? && outbox == old(outbox) + CallResponse(p.value).value
        else h == Some(Crashed(CallFailure(p.value))) && outbox == old(outbox)
    {
      var p := Read();
      if p.Fault? {
        return Some(p.why);
      }
      var reply := CallResponse(p.value);
      if reply.None? {
        return Some(Crashed(CallFailure(p.value)));
      }
      var i := 0;
      while i < |reply.value|
        invariant 0 <= i <= |reply.value|
        invariant outbox == old(outbox) + reply.value[..i]
        invariant inbox == ReadBlocking(old(inbox)).1
      {
        Write(reply.value[i]);
        i := i + 1;
      }
      assert reply.value[..i] == reply.value;
      h := None;
    }

    /**
     * `_run_call_step`: a callable that raises sends the exception and leaves
     * `StepGen` as it was; otherwise `StepGen` is what it returned and `Tnext`
     * acknowledges the call.
     */
    method RunCallStep() returns (h: Option<Halt>)
      modifies this`inbox, this`outbox, this`stepGen
      ensures inbox == ReadBlocking(old(inbox)).1
      ensures var p := ReadBlocking(old(inbox)).0;
        if p.Fault? then h == Some(p.why) && outbox == old(outbox) && stepGen == old(stepGen)
        else if !p.value.Request? then h == Some(Crashed(NotARequest)) && outbox == old(outbox) && stepGen == old(stepGen)
        else match StartCall(p.value.behaviour)
          case StartRaised(m) => h.None? && outbox == old(outbox) + ExceptionReply(m) && stepGen == old(stepGen)
          case StartReturned(g) => h.None? && outbox == old(outbox) + [Tnext] && stepGen == g
    {
      var p := Read();
      if p.Fault? {
        return Some(p.why);
      }
      if !p.value.Request? {
        return Some(Crashed(NotARequest));
      }
      h := None;
      match StartCall(p.value.behaviour)
      case StartRaised(m) =>
        WriteException(m);
      case StartReturned(g) =>
        stepGen := g;
        Write(Tnext);
    }

    /** `_run_next`. */
    method RunNext()
      modifies this`outbox, this`stepGen
      ensures outbox == old(outbox) + NextReply(old(stepGen)).0
      ensures stepGen == NextReply(old(stepGen)).1
    {
      var g := stepGen;
      if g.None? {
        WriteException(NotAnIterator);
        stepGen := None;
        return;
      }
      var (s, rest) := NextItem(g.value);
      match s
      case Item(v) =>
        Write(v);
        stepGen := Some(rest);
      case Exhausted =>
        Write(Tend);
      case Failure(m) =>
        WriteException(m);
        stepGen := None;
    }

    /** `_call_iter_handleInput`. */
    method HandleInputs() returns (h: Option<Halt>)
      modifies this`inbox, this`pause, this`stop
      ensures (h, Control(pause, stop), inbox) == HandleInput(old(inbox), Control(old(pause), old(stop)), interval)
    {
      while true
        invariant HandleInput(inbox, Control(pause, stop), interval)
          == HandleInput(old(inbox), Control(old(pause), old(stop)), interval)
        decreases |inbox|
      {
        var p := ReadValue(if Truthy(pause) then interval else Num(0.0));
        match p
        case Fault(why) => return Some(why);
        case Empty => return None;
        case Got(t) =>
          if TokenEq(t, Tpause) {
            h := RunSetPause();
            if h.Some? {
              return;
            }
          } else if TokenEq(t, Tstop) {
            RunStop();
          } else {
            return Some(Crashed(UnexpectedToken));
          }
      }
    }

    /** The loop of `_run_call_iter` over the generator `gen0`. */
    method StreamItems(gen0: Iter) returns (end: IterEnd)
      modifies this`inbox, this`outbox, this`pause, this`stop
      ensures var r := IterLoop(old(State()), gen0);
        end == r.end && State() == r.after && outbox == old(outbox) + r.out
    {
      ghost var r0 := IterLoop(State(), gen0);
      ghost var total := r0.(out := outbox + r0.out);
      var gen := gen0;
      while true
        invariant StreamFinishes(IterLoop(State(), gen), outbox, total)
        decreases |inbox|
      {
        ghost var before := State();
        ghost var done := outbox;
        var h := HandleInputs();
        StreamInputStep(before, gen, h, Control(pause, stop), inbox, done, total);
        assert State() == before.(pause := pause, stop := stop, inbox := inbox);
        if h.Some? {
          return Aborted(h.value);
        }
        if stop {
          return StoppedMidStream;
        }
        if Truthy(pause) {
          continue;
        }
        var (s, g) := NextItem(gen);
        match s
        case Exhausted =>
          Write(Tend);
          return Finished;
        case Failure(m) =>
          WriteException(m);
          return GeneratorFailed;
        case Item(v) =>
          Write(v);
          gen := g;
      }
    }

    /** `_run_call_iter`. */
    method RunCallIter() returns (end: IterEnd)
      modifies this`inbox, this`outbox, this`pause, this`stop
      ensures var r := CallIterRun(old(State()));
        end == r.end && State() == r.after && outbox == old(outbox) + r.out
    {
      var p := Read();
      if p.Fault? {
        return Aborted(p.why);
      }
      if !p.value.Request? {
        return Aborted(Crashed(NotARequest));
      }
      match StartCall(p.value.behaviour)
      case StartRaised(m) =>
        WriteException(m);
        return CallRaised;
      case StartReturned(g) =>
        end := StreamItems(g.GetOr(NotIterator));
    }

    /** The table `_Runs`: the handler for a token; a value without one raises KeyError. */
    method Dispatch(t: Value) returns (h: Option<Halt>)
      modifies this
      ensures var r := Dispatched(t, old(State()));
        h == r.halt && State() == r.after && outbox == old(outbox) + r.out
    {
      if !IsT(t) {
        return Some(Crashed(UnknownToken));
      }
      match t.id
      case Pass => h := None;
      case Interval => h := RunSetInterval();
      case Timeout => h := RunSetTimeout();
      case Pause => h := RunSetPause();
      case Call => h := RunCall();
      case CallIter =>
        var end := RunCallIter();
        h := HaltOf(end);
      case CallStep => h := RunCallStep();
      case Next => RunNext(); h := None;
      case Stop => RunStop(); h := None;
      case _ => h := Some(Crashed(UnknownToken));
    }

    /**
     * `run`: polls with `Interval` as the wait and runs the handler of each
     * token. An empty poll stops the loop once `Timeout / Interval < i`, as
     * long as no step generator is active. `polls` lists what each poll saw.
     */
    method Run() returns (end: RunEnd, ghost polls: seq<Polled>)
      modifies this
      ensures var r := RunLoop(old(State()), []);
        end == r.end && State() == r.after && outbox == old(outbox) + r.out && polls == r.polls
    {
      ghost var r0 := RunLoop(State(), []);
      ghost var total := r0.(out := outbox + r0.out);
      var i: nat := 0;
      polls := [];
      while true
        invariant i == TrailingEmpties(polls)
        invariant Finishes(RunLoop(State(), polls), outbox, total)
        decreases |inbox|
      {
        if stop {
          return Stopped, polls;
        }
        ghost var before := State();
        ghost var log := polls;
        var p := ReadWithPass(interval);
        polls := polls + [p];
        assert State() == before.(inbox := inbox);
        match p
        case Fault(why) =>
          return Halted(why), polls;
        case Empty =>
          assert TrailingEmpties(polls) == i + 1 by {
            assert polls[..|polls| - 1] == log;
          }
          var limit := IdleLimit(timeout, interval);
          if limit.None? {
            return Halted(Crashed(NoIdleLimit)), polls;
          }
          if limit.value < i as real && stepGen.None? {
            return TimedOut, polls;
          }
          i := i + 1;
        case Got(t) =>
          i := 0;
          ghost var written := outbox;
          ghost var s1 := State();
          var h := Dispatch(t);
          if h.Some? {
            return Halted(h.value), polls;
          }
          RunGotStep(before, log, t, written, total);
      }
    }
  }

  /** The rest of a run, `r`, after the values `done` were written, completes the run `total`. */
  predicate Finishes(r: RunResult, done: seq<Value>, total: RunResult)
  {
    r.end == total.end && r.after == total.after && r.polls == total.polls && done + r.out == total.out
  }

  /** The rest of a stream, `r`, after the values `done` were written, completes the stream `total`. */
  predicate StreamFinishes(r: IterRun, done: seq<Value>, total: IterRun)
  {
    r.end == total.end && r.after == total.after && done + r.out == total.out
  }

  /**
   * One round of the loop of `_run_call_iter`, after `_call_iter_handleInput`
   * returned `h` with the settings `c` and the schedule `q`: the stream ends
   * here, or goes on with the same generator (paused) or the advanced one,
   * with the item it sent moved to what is done.
   */
  lemma StreamInputStep(s: Server, g: Iter, h: Option<Halt>, c: Control, q: seq<Event>, done: seq<Value>, total: IterRun)
    requires HandleInput(s.inbox, Control(s.pause, s.stop), s.interval) == (h, c, q)
    requires StreamFinishes(IterLoop(s, g), done, total)
    ensures var s1 := s.(pause := c.pause, stop := c.stop, inbox := q);
      && (h.Some? ==> StreamFinishes(IterRun(Aborted(h.value), s1, []), done, total))
      && (h.None? && c.stop ==> StreamFinishes(IterRun(StoppedMidStream, s1, []), done, total))
      && (h.None? && !c.stop && Truthy(c.pause) ==> StreamFinishes(IterLoop(s1, g), done, total))
      && (h.None? && !c.stop && !Truthy(c.pause) && NextItem(g).0.Exhausted? ==>
        StreamFinishes(IterRun(Finished, s1, [Tend]), done, total))
      && (h.None? && !c.stop && !Truthy(c.pause) && NextItem(g).0.Failure? ==>
        StreamFinishes(IterRun(GeneratorFailed, s1, ExceptionReply(NextItem(g).0.message)), done, total))
      && (h.None? && !c.stop && !Truthy(c.pause) && NextItem(g).0.Item? ==>
        StreamFinishes(IterLoop(s1, NextItem(g).1), done + [NextItem(g).0.value], total))
  {
    var s1 := s.(pause := c.pause, stop := c.stop, inbox := q);
    if h.None? && !c.stop && !Truthy(c.pause) && NextItem(g).0.Item? {
      Regroup(done, [NextItem(g).0.value], IterLoop(s1, NextItem(g).1).out);
    }
  }

  /** A value that arrives and whose handler returns: the run goes on from the handler's fields, with its output written. */
  lemma RunGotStep(s: Server, polls: seq<Polled>, t: Value, done: seq<Value>, total: RunResult)
    requires !s.stop && PollQueue(s.inbox, s.interval).0 == Got(t)
    requires Dispatched(t, s.(inbox := PollQueue(s.inbox, s.interval).1)).halt.None?
    requires Finishes(RunLoop(s, polls), done, total)
    ensures var r := Dispatched(t, s.(inbox := PollQueue(s.inbox, s.interval).1));
      Finishes(RunLoop(r.after, polls + [Got(t)]), done + r.out, total)
  {
    var r := Dispatched(t, s.(inbox := PollQueue(s.inbox, s.interval).1));
    Regroup(done, r.out, RunLoop(r.after, polls + [Got(t)]).out);
  }

  /** Concatenation regrouped, so that a loop can move written values from its remaining work to what is done. */
  lemma Regroup(a: seq<Value>, b: seq<Value>, c: seq<Value>)
    ensures (a + b) + c == a + (b + c)
  {
  }
}

/**
 * The calling half of the RPC protocol, `RpcServer` in external/rpcss.py.
 * It writes a token and a request, then interprets the values the other
 * side sends back. The reply queue is the sequence `inbox`; a read from an
 * exhausted inbox is a read that would wait forever.
 */
module Caller {
  import opened Options
  import opened Tokens

  /** What `_read()` discards: the leading `Tpass` values. */
  function DropPass(q: seq<Value>): (r: seq<Value>)
    ensures |r| <= |q|
    ensures r != [] ==> !TokenEq(r[0], Tpass)
  {
    if q != [] && TokenEq(q[0], Tpass) then DropPass(q[1..]) else q
  }

  /** `_read()` only discards passes: what DropPass leaves is a suffix, and everything before it is `Tpass`. */
  lemma {:induction false} DropPassDropsOnlyPasses(q: seq<Value>)
    ensures DropPass(q) == q[|q| - |DropPass(q)|..]
    ensures forall i :: 0 <= i < |q| - |DropPass(q)| ==> q[i] == Tpass
    decreases |q|
  {
    if q != [] && TokenEq(q[0], Tpass) {
      DropPassDropsOnlyPasses(q[1..]);
      assert q[1..][|q| - 1 - |DropPass(q)|..] == q[|q| - |DropPass(q)|..];
      forall i | 0 <= i < |q| - |DropPass(q)|
        ensures q[i] == Tpass
      {
        if i > 0 {
          assert q[i] == q[1..][i - 1];
        }
      }
    }
  }

  /** `_read()`: the first value that is not `Tpass`, and the queue after it; None when no such value ever arrives. */
  function ReadReply(q: seq<Value>): (r: (Option<Value>, seq<Value>))
    ensures r.0.Some? ==> !TokenEq(r.0.value, Tpass) && |r.1| < |q|
    ensures |r.1| <= |q|
  {
    var d := DropPass(q);
    if d == [] then (None, []) else (Some(d[0]), d[1..])
  }

  /** `_read()` returns the first non-pass value and leaves exactly what follows it. */
  lemma ReadReplyIsFirstNonPass(q: seq<Value>)
    ensures ReadReply(q).0.None? <==> forall i :: 0 <= i < |q| ==> q[i] == Tpass
    ensures ReadReply(q).0.Some? ==>
      exists k :: 0 <= k < |q| && q[k] == ReadReply(q).0.value && q[k] != Tpass &&
        ReadReply(q).1 == q[k + 1..] && forall i :: 0 <= i < k ==> q[i] == Tpass
  {
    var d := DropPass(q);
    DropPassDropsOnlyPasses(q);
    if d != [] {
      var k := |q| - |d|;
      assert q[k] == d[0];
      assert d[1..] == q[k + 1..];
    }
  }

  /** How `call` ends: it returns the reply, raises the value after `Texception`, or waits for ever. */
  datatype CallOutcome = Returned(value: Value) | Raised(error: Value) | Blocked

  /** `call`'s reading of the reply queue. */
  function CallReply(q: seq<Value>): (r: (CallOutcome, seq<Value>))
  {
    var (c, q1) := ReadReply(q);
    if c.None? then (Blocked, q1)
    else if TokenEq(c.value, Texception) then
      var (e, q2) := ReadReply(q1);
      if e.None? then (Blocked, q2) else (Raised(e.value), q2)
    else (Returned(c.value), q1)
  }

  /** A reply that is neither `Tpass` nor `Texception` is returned as it is. */
  lemma CallReturnsReply(v: Value, rest: seq<Value>)
    requires v != Tpass && v != Texception
    ensures CallReply([v] + rest) == (Returned(v), rest)
  {
    assert ([v] + rest)[1..] == rest;
  }

  /** `Texception` followed by a value makes `call` raise that value. */
  lemma CallRaisesException(e: Value, rest: seq<Value>)
    requires e != Tpass
    ensures CallReply([Texception, e] + rest) == (Raised(e), rest)
  {
    assert ([Texception, e] + rest)[1..] == [e] + rest;
    assert ([e] + rest)[1..] == rest;
  }

  /** How a `call_iter` or `call_step` stream ends. */
  datatype StreamEnd = Ended | Failed(error: Value) | Stalled

  datatype StreamResult = StreamResult(items: seq<Value>, end: StreamEnd, rest: seq<Value>)

  /** Neither of the values that end a stream, nor a pass. */
  predicate IsItem(v: Value) {
    !(TokenEq(v, Tpass) || TokenEq(v, Tend) || TokenEq(v, Texception))
  }

  /** The values `call_iter` yields from the reply queue, until `Tend` or an exception. */
  function IterReplies(q: seq<Value>): (r: StreamResult)
    ensures |r.items| <= |q|
    decreases |q|
  {
    var d := DropPass(q);
    if d == [] then StreamResult([], Stalled, [])
    else if TokenEq(d[0], Tend) then StreamResult([], Ended, d[1..])
    else if TokenEq(d[0], Texception) then
      var (e, q2) := ReadReply(d[1..]);
      StreamResult([], if e.None? then Stalled else Failed(e.value), q2)
    else
      var more := IterReplies(d[1..]);
      StreamResult([d[0]] + more.items, more.end, more.rest)
  }

  /** `call_iter` never yields `Tpass`, `Tend` or `Texception`. */
  lemma {:induction false} IterYieldsOnlyItems(q: seq<Value>)
    ensures forall i :: 0 <= i < |IterReplies(q).items| ==> IsItem(IterReplies(q).items[i])
    decreases |q|
  {
    var d := DropPass(q);
    if d != [] && IsItem(d[0]) {
      IterYieldsOnlyItems(d[1..]);
    }
  }

  /** One pass of the reading loop: a value that is an item is yielded, and the stream goes on after it. */
  lemma IterReadsItem(q: seq<Value>)
    requires ReadReply(q).0.Some? && IsItem(ReadReply(q).0.value)
    ensures IterReplies(q).items == [ReadReply(q).0.value] + IterReplies(ReadReply(q).1).items
    ensures IterReplies(q).end == IterReplies(ReadReply(q).1).end
    ensures IterReplies(q).rest == IterReplies(ReadReply(q).1).rest
  {
  }

  /** Items followed by `Tend` come out as exactly those items. */
  lemma {:induction false} IterOfEndedStream(items: seq<Value>, rest: seq<Value>)
    requires forall i :: 0 <= i < |items| ==> IsItem(items[i])
    ensures IterReplies(items + [Tend] + rest) == StreamResult(items, Ended, rest)
    decreases |items|
  {
    var q := items + [Tend] + rest;
    if items == [] {
      assert q[1..] == rest;
    } else {
      assert q[0] == items[0];
      assert q[1..] == items[1..] + [Tend] + rest;
      IterOfEndedStream(items[1..], rest);
      assert [items[0]] + items[1..] == items;
    }
  }

  /** Items followed by `Texception` and an error come out as those items, then the error is raised. */
  lemma {:induction false} IterOfFailedStream(items: seq<Value>, e: Value, rest: seq<Value>)
    requires forall i :: 0 <= i < |items| ==> IsItem(items[i])
    requires e != Tpass
    ensures IterReplies(items + [Texception, e] + rest) == StreamResult(items, Failed(e), rest)
    decreases |items|
  {
    var q := items + [Texception, e] + rest;
    if items == [] {
      assert q[1..] == [e] + rest;
      assert ([e] + rest)[1..] == rest;
    } else {
      assert q[0] == items[0];
      assert q[1..] == items[1..] + [Texception, e] + rest;
      IterOfFailedStream(items[1..], e, rest);
      assert [items[0]] + items[1..] == items;
    }
  }

  /** `call_step`'s reading: the stream, and how many `Tnext` it sends. */
  datatype StepResult = StepResult(stream: StreamResult, nexts: nat)

  /**
   * `call_step` reads one acknowledgement; `Texception` there raises at once.
   * Afterwards every read of the stream is preceded by one `Tnext`.
   */
  function StepReplies(q: seq<Value>): (r: StepResult)
    ensures r.nexts == 0 || r.nexts == |r.stream.items| + 1
  {
    var (init, q1) := ReadReply(q);
    if init.None? then StepResult(StreamResult([], Stalled, q1), 0)
    else if TokenEq(init.value, Texception) then
      var (e, q2) := ReadReply(q1);
      StepResult(StreamResult([], if e.None? then Stalled else Failed(e.value), q2), 0)
    else
      var s := IterReplies(q1);
      StepResult(s, |s.items| + 1)
  }

  /** An acknowledged step stream of items ending in `Tend` costs one `Tnext` per item plus one. */
  lemma StepOfEndedStream(ack: Value, items: seq<Value>, rest: seq<Value>)
    requires ack != Tpass && ack != Texception
    requires forall i :: 0 <= i < |items| ==> IsItem(items[i])
    ensures StepReplies([ack] + items + [Tend] + rest) == StepResult(StreamResult(items, Ended, rest), |items| + 1)
  {
    var q := [ack] + items + [Tend] + rest;
    assert q[0] == ack && q[1..] == items + [Tend] + rest;
    assert ReadReply(q) == (Some(ack), items + [Tend] + rest);
    IterOfEndedStream(items, rest);
  }

  /** An acknowledged step stream of items that fails with `e` costs the same `Tnext`s and raises `e`. */
  lemma StepOfFailedStream(ack: Value, items: seq<Value>, e: Value, rest: seq<Value>)
    requires ack != Tpass && ack != Texception
    requires e != Tpass
    requires forall i :: 0 <= i < |items| ==> IsItem(items[i])
    ensures StepReplies([ack] + items + [Texception, e] + rest)
      == StepResult(StreamResult(items, Failed(e), rest), |items| + 1)
  {
    var q := [ack] + items + [Texception, e] + rest;
    assert q[0] == ack && q[1..] == items + [Texception, e] + rest;
    assert ReadReply(q) == (Some(ack), items + [Texception, e] + rest);
    IterOfFailedStream(items, e, rest);
  }

  /** `n` copies of `Tnext`. */
  function Nexts(n: nat): (r: seq<Value>)
    ensures |r| == n
  {
    seq(n, _ => Tnext)
  }

  class RpcServer {
    /** Replies not yet read, in arrival order. */
    var inbox: seq<Value>
    /** Everything written to the other side, in order. */
    var outbox: seq<Value>

    constructor (replies: seq<Value>)
      ensures inbox == replies && outbox == []
    {
      inbox := replies;
      outbox := [];
    }

    /** `_read()`. */
    method Read() returns (r: Option<Value>)
      modifies this`inbox
      ensures (r, inbox) == ReadReply(old(inbox))
    {
      while inbox != [] && TokenEq(inbox[0], Tpass)
        invariant DropPass(inbox) == DropPass(old(inbox))
        decreases |inbox|
      {
        inbox := inbox[1..];
      }
      if inbox == [] {
        r := None;
      } else {
        r := Some(inbox[0]);
        inbox := inbox[1..];
      }
    }

    /** `_write(x)`. */
    method Write(x: Value)
      modifies this`outbox
      ensures outbox == old(outbox) + [x]
    {
      outbox := outbox + [x];
    }

    /** `pass_`. */
    method Pass()
      modifies this`outbox
      ensures outbox == old(outbox) + [Tpass]
    {
      Write(Tpass);
    }

    /** `setInterval`. */
    method SetInterval(interval: Value)
      modifies this`outbox
      ensures outbox == old(outbox) + [Tinterval, interval]
    {
      Write(Tinterval);
      Write(interval);
    }

    /** `setTimeout`. */
    method SetTimeout(timeout: Value)
      modifies this`outbox
      ensures outbox == old(outbox) + [Ttimeout, timeout]
    {
      Write(Ttimeout);
      Write(timeout);
    }

    /** `setPause`. */
    method SetPause(value: Value)
      modifies this`outbox
      ensures outbox == old(outbox) + [Tpause, value]
    {
      Write(Tpause);
      Write(value);
    }

    /** `stop`. */
    method Stop()
      modifies this`outbox
      ensures outbox == old(outbox) + [Tstop]
    {
      Write(Tstop);
    }

    /** `call`. */
    method Call(request: Value) returns (r: CallOutcome)
      modifies this
      ensures outbox == old(outbox) + [Tcall, request]
      ensures (r, inbox) == CallReply(old(inbox))
    {
      Write(Tcall);
      Write(request);
      var c := Read();
      if c.None? {
        return Blocked;
      }
      if TokenEq(c.value, Texception) {
        var e := Read();
        r := if e.None? then Blocked else Raised(e.value);
      } else {
        r := Returned(c.value);
      }
    }

    /**
     * The reading step `call_iter` and `call_step` share: read a value; `Tend`
     * ends the stream, `Texception` raises the value read after it, anything
     * else is yielded.
     */
    method ReadStreamValue() returns (r: Option<Value>, end: StreamEnd)
      modifies this`inbox
      ensures r.Some? ==>
        IterReplies(old(inbox)) == StreamResult([r.value] + IterReplies(inbox).items, IterReplies(inbox).end, IterReplies(inbox).rest)
      ensures r.None? ==> IterReplies(old(inbox)) == StreamResult([], end, inbox)
      ensures |inbox| < |old(inbox)| || r.None?
    {
      var n := Read();
      if n.None? {
        return None, Stalled;
      }
      if IsT(n.value) {
        if TokenEq(n.value, Tend) {
          return None, Ended;
        }
        if TokenEq(n.value, Texception) {
          var e := Read();
          end := if e.None? then Stalled else Failed(e.value);
          return None, end;
        }
      }
      IterReadsItem(old(inbox));
      r, end := n, Stalled;
    }

    /** `call_iter`, its generator run until it stops. */
    method CallIter(request: Value) returns (items: seq<Value>, end: StreamEnd)
      modifies this
      ensures outbox == old(outbox) + [Tcall_iter, request]
      ensures IterReplies(old(inbox)) == StreamResult(items, end, inbox)
    {
      Write(Tcall_iter);
      Write(request);
      items := [];
      while true
        invariant outbox == old(outbox) + [Tcall_iter, request]
        invariant IterReplies(old(inbox))
          == StreamResult(items + IterReplies(inbox).items, IterReplies(inbox).end, IterReplies(inbox).rest)
        decreases |inbox|
      {
        ghost var q := inbox;
        var n;
        n, end := ReadStreamValue();
        if n.None? {
          return;
        }
        assert items + IterReplies(q).items == (items + [n.value]) + IterReplies(inbox).items;
        items := items + [n.value];
      }
    }

    /** `call_step`, its generator run until it stops. */
    method CallStep(request: Value) returns (items: seq<Value>, end: StreamEnd)
      modifies this
      ensures StepReplies(old(inbox)).stream == StreamResult(items, end, inbox)
      ensures outbox == old(outbox) + [Tcall_step, request] + Nexts(StepReplies(old(inbox)).nexts)
    {
      Write(Tcall_step);
      Write(request);
      items := [];
      var init := Read();
      if init.None? {
        return items, Stalled;
      }
      if TokenEq(init.value, Texception) {
        var e := Read();
        end := if e.None? then Stalled else Failed(e.value);
        return;
      }
      items, end := StepStream();
    }

    /** One step of `call_step`'s loop: send `Tnext`, then read the answer. */
    method RequestNext() returns (r: Option<Value>, end: StreamEnd)
      modifies this
      ensures outbox == old(outbox) + [Tnext]
      ensures r.Some? ==>
        IterReplies(old(inbox)) == StreamResult([r.value] + IterReplies(inbox).items, IterReplies(inbox).end, IterReplies(inbox).rest)
      ensures r.None? ==> IterReplies(old(inbox)) == StreamResult([], end, inbox)
      ensures |inbox| < |old(inbox)| || r.None?
    {
      Write(Tnext);
      r, end := ReadStreamValue();
    }

    /** The stepping loop of `call_step`: one `Tnext`, then one read, until the stream ends. */
    method StepStream() returns (items: seq<Value>, end: StreamEnd)
      modifies this
      ensures IterReplies(old(inbox)) == StreamResult(items, end, inbox)
      ensures outbox == old(outbox) + Nexts(|items| + 1)
    {
      items := [];
      while true
        invariant outbox == old(outbox) + Nexts(|items|)
        invariant IterReplies(old(inbox))
          == StreamResult(items + IterReplies(inbox).items, IterReplies(inbox).end, IterReplies(inbox).rest)
        decreases |inbox|
      {
        ghost var q := inbox;
        var n;
        n, end := RequestNext();
        assert Nexts(|items|) + [Tnext] == Nexts(|items| + 1);
        if n.None? {
          return;
        }
        assert items + IterReplies(q).items == (items + [n.value]) + IterReplies(inbox).items;
        items := items + [n.value];
      }
    }
  }
}

/**
 * The two halves of the RPC protocol in external/rpcss.py side by side: what
 * the dispatcher (`RpcClient`) writes is read back by the caller
 * (`RpcServer`) as the result the remote call produced.
 */
module Protocol {
  import opened Options
  import opened Tokens
  import Caller
  import Dispatcher

  /** A value the caller does not take for a pass or an end marker. */
  predicate Plain(v: Value) {
    Caller.IsItem(v)
  }

  lemma Regroup(a: seq<Value>, b: seq<Value>, c: seq<Value>, d: seq<Value>)
    ensures a + (b + c) + d == a + b + c + d
    ensures (a + b + c + d)[|a|..] == b + c + d
  {
  }

  /**
   * `call`: the dispatcher's answer to a request that returns a plain value is
   * returned by the caller, and one that raises is raised as that exception.
   */
  lemma CallRoundTrip(data: Value, rest: seq<Value>)
    requires Dispatcher.CallResponse(data).Some?
    requires data.behaviour.Returns? ==> Plain(data.behaviour.result)
    ensures Caller.CallReply(Dispatcher.CallResponse(data).value + rest)
      == (if data.behaviour.Returns? then Caller.Returned(data.behaviour.result)
          else Caller.Raised(Exc(data.behaviour.message)), rest)
  {
    match data.behaviour
    case Returns(v) =>
      assert Dispatcher.CallResponse(data).value == [v];
      Caller.CallReturnsReply(v, rest);
    case Raises(m) =>
      assert Dispatcher.CallResponse(data).value == [Texception, Exc(m)];
      Caller.CallRaisesException(Exc(m), rest);
  }

  /**
   * `call_step` over a generator of plain items that stops: the acknowledgement
   * and the answers to `|items| + 1` `Tnext` requests are read back as exactly
   * those items, and the caller sends exactly that many `Tnext`.
   */
  lemma StepRoundTrip(items: seq<Value>, rest: seq<Value>)
    requires forall i :: 0 <= i < |items| ==> Plain(items[i])
    ensures var answers := Dispatcher.Drain(Some(Dispatcher.Iter(items, None)), |items| + 1).0;
      Caller.StepReplies([Tnext] + answers + rest)
        == Caller.StepResult(Caller.StreamResult(items, Caller.Ended, rest), |items| + 1)
  {
    var answers := Dispatcher.Drain(Some(Dispatcher.Iter(items, None)), |items| + 1).0;
    Dispatcher.DrainEndedGenerator(items);
    assert answers == items + [Tend];
    Regroup([Tnext], items, [Tend], rest);
    Caller.StepOfEndedStream(Tnext, items, rest);
  }

  /**
   * `call_step` over a generator that raises after its items: the caller yields
   * the items and then raises the exception the dispatcher sends.
   */
  lemma StepFailureRoundTrip(items: seq<Value>, m: string, rest: seq<Value>)
    requires forall i :: 0 <= i < |items| ==> Plain(items[i])
    ensures var answers := Dispatcher.Drain(Some(Dispatcher.Iter(items, Some(m))), |items| + 1).0;
      Caller.StepReplies([Tnext] + answers + rest)
        == Caller.StepResult(Caller.StreamResult(items, Caller.Failed(Exc(m)), rest), |items| + 1)
  {
    var answers := Dispatcher.Drain(Some(Dispatcher.Iter(items, Some(m))), |items| + 1).0;
    Dispatcher.DrainFailingGenerator(items, m);
    assert answers == items + [Texception, Exc(m)];
    Regroup([Tnext], items, [Texception, Exc(m)], rest);
    Caller.StepOfFailedStream(Tnext, items, Exc(m), rest);
  }

  /** The dispatcher's inbox for one `call_iter` request: the request, then `n` waits in which nothing arrives. */
  function IterRequest(items: seq<Value>, failure: Option<string>, n: nat): seq<Dispatcher.Event>
  {
    [Dispatcher.Msg(Request(Yields(items, failure)))] + Dispatcher.Ticks(n)
  }

  /** Before its stream, `_run_call_iter` reads the request and calls it, leaving the waits. */
  lemma ReadIterRequest(s: Dispatcher.Server, items: seq<Value>, failure: Option<string>, n: nat)
    requires s.inbox == IterRequest(items, failure, n)
    ensures Dispatcher.CallIterRun(s) == Dispatcher.IterLoop(s.(inbox := Dispatcher.Ticks(n)), Dispatcher.Iter(items, failure))
  {
    assert s.inbox[1..] == Dispatcher.Ticks(n);
    assert Dispatcher.ReadBlocking(s.inbox) == (Dispatcher.Got(Request(Yields(items, failure))), Dispatcher.Ticks(n));
  }

  /**
   * `call_iter` over a generator of plain items that runs to its end, with no
   * pause and no `Stop`: the dispatcher's `_run_call_iter` finishes, and the
   * caller yields exactly those items from what it sent.
   */
  lemma IterRoundTrip(s: Dispatcher.Server, items: seq<Value>, n: nat, rest: seq<Value>)
    requires forall i :: 0 <= i < |items| ==> Plain(items[i])
    requires s.inbox == IterRequest(items, None, n) && n > |items| && !Truthy(s.pause) && !s.stop
    ensures var r := Dispatcher.CallIterRun(s);
      r.end == Dispatcher.Finished && Caller.IterReplies(r.out + rest) == Caller.StreamResult(items, Caller.Ended, rest)
  {
    ReadIterRequest(s, items, None, n);
    Dispatcher.UninterruptedStream(s.(inbox := Dispatcher.Ticks(n)), Dispatcher.Iter(items, None), n);
    Caller.IterOfEndedStream(items, rest);
  }

  /**
   * `call_iter` over a generator that raises after its plain items: the
   * dispatcher sends the items and the exception, and the caller yields the
   * items and then raises that exception.
   */
  lemma IterFailureRoundTrip(s: Dispatcher.Server, items: seq<Value>, m: string, n: nat, rest: seq<Value>)
    requires forall i :: 0 <= i < |items| ==> Plain(items[i])
    requires s.inbox == IterRequest(items, Some(m), n) && n > |items| && !Truthy(s.pause) && !s.stop
    ensures var r := Dispatcher.CallIterRun(s);
      r.end == Dispatcher.GeneratorFailed && Caller.IterReplies(r.out + rest) == Caller.StreamResult(items, Caller.Failed(Exc(m)), rest)
  {
    ReadIterRequest(s, items, Some(m), n);
    Dispatcher.UninterruptedStream(s.(inbox := Dispatcher.Ticks(n)), Dispatcher.Iter(items, Some(m)), n);
    Caller.IterOfFailedStream(items, Exc(m), rest);
  }
}

/**
 * The values that travel over the RPC channel (external/rpcss.py): tokens of
 * class `T`, which compare by their Id, and ordinary payload objects. Pickling
 * is an injective encoding, so the model passes values through unchanged.
 */
module Tokens {
  import opened Options

  /** The Ids the protocol uses, and any other Id string, which is never one of those eleven. */
  datatype TokenId =
    | Pass | Interval | Timeout | Pause | Call | CallIter | End | CallStep | Next | Exception | Stop
    | Named(name: OtherName)

  type OtherName = s: string | s !in KnownNames witness "other"

  const KnownNames: set<string> :=
    {"pass", "interval", "timeout", "pause", "call", "call_iter", "end", "call_step", "next", "exception", "stop"}

  /** The Id string a token carries. */
  function IdString(id: TokenId): (r: string)
    ensures id.Named? <==> r !in KnownNames
  {
    match id
    case Pass => "pass"
    case Interval => "interval"
    case Timeout => "timeout"
    case Pause => "pause"
    case Call => "call"
    case CallIter => "call_iter"
    case End => "end"
    case CallStep => "call_step"
    case Next => "next"
    case Exception => "exception"
    case Stop => "stop"
    case Named(s) => s
  }

  /** Each Id string has exactly one TokenId, so comparing TokenIds is comparing the strings. */
  lemma IdStringInjective(a: TokenId, b: TokenId)
    ensures IdString(a) == IdString(b) <==> a == b
  {
  }

  datatype Value =
    | T(id: TokenId)                  // a token
    | NoneValue
    | Bool(b: bool)
    | Num(x: real)                    // Python int or float
    | Str(s: string)
    | Exc(message: string)            // an exception object
    | Request(behaviour: Behaviour)   // the `(f, args, kwargs)` triple, described by what the call does

  /** What `f(*args, **kwargs)` does when the remote side runs it. */
  datatype Behaviour =
    | Returns(result: Value)
    | Raises(message: string)
    | Yields(items: seq<Value>, failure: Option<string>)   // a generator: its items, then StopIteration or an exception

  const Tpass := T(Pass)
  const Tinterval := T(Interval)
  const Ttimeout := T(Timeout)
  const Tpause := T(Pause)
  const Tcall := T(Call)
  const Tcall_iter := T(CallIter)
  const Tend := T(End)
  const Tcall_step := T(CallStep)
  const Tnext := T(Next)
  const Texception := T(Exception)
  const Tstop := T(Stop)

  /** `isT(x)`. */
  predicate IsT(x: Value) {
    x.T?
  }

  /**
   * `x == t` for a token `t`: `T.__eq__` is False for anything that is not a `T`
   * and otherwise compares the Ids (equal TokenIds are equal strings, by IdStringInjective).
   */
  predicate TokenEq(x: Value, t: Value)
    requires IsT(t)
  {
    IsT(x) && x.id == t.id
  }

  /** Comparing with a token is the same as equality of values: equal Ids, and never a non-token. */
  lemma TokenEqIsIdentity(x: Value, t: Value)
    requires IsT(t)
    ensures TokenEq(x, t) <==> x == t
    ensures TokenEq(x, t) <==> IsT(x) && IdString(x.id) == IdString(t.id)
  {
    if IsT(x) {
      IdStringInjective(x.id, t.id);
    }
  }

  /** The eleven tokens are pairwise distinct. */
  lemma TokensDistinct()
    ensures |{Tpass, Tinterval, Ttimeout, Tpause, Tcall, Tcall_iter, Tend, Tcall_step, Tnext, Texception, Tstop}| == 11
  {
  }

  /** Python truth value, as `if self.Pause:` reads it. */
  predicate Truthy(v: Value) {
    match v
    case NoneValue => false
    case Bool(b) => b
    case Num(x) => x != 0.0
    case Str(s) => s != []
    case _ => true
  }

  /** The number a value stands for in arithmetic and in `Queue.get` timeouts (`True` is 1); None when Python raises TypeError. */
  function AsNumber(v: Value): (r: Option<real>)
    ensures v.Num? ==> r == Some(v.x)
    ensures r.Some? ==> v.Num? || v.Bool?
  {
    match v
    case Num(x) => Some(x)
    case Bool(b) => Some(if b then 1.0 else 0.0)
    case _ => None
  }
}

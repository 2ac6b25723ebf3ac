/** The middleware chain of Iron: a pipeline with a normal and an error track
    (iron-fork/src/middleware/mod.rs). A request that middleware edits in place is threaded through. */
module Middleware {
  import opened Common

  /** What a before middleware answers: go on, or switch to the error track. */
  datatype Outcome<Err> = Passed | Failed(err: Err)

  datatype Before<!Req, !Err> = Before(
    before: Req -> (Req, Outcome<Err>),
    catch: (Req, Err) -> (Req, Outcome<Err>))

  datatype After<!Req, !Res, !Err> = After(
    after: (Req, Res) -> (Req, Result<Res, Err>),
    catch: (Req, Err) -> (Req, Result<Res, Err>))

  type Handler<!Req, !Res, !Err> = Req -> (Req, Result<Res, Err>)

  // ---------------------------------------------------------------- specification: three folds

  /** One before middleware: its `before` on the normal track, its `catch` on the error track. */
  function BeforeStep<Req, Err>(b: Before<Req, Err>, req: Req, st: Outcome<Err>): (Req, Outcome<Err>) {
    match st
    case Passed => b.before(req)
    case Failed(err) => b.catch(req, err)
  }

  function BeforeFold<Req, Err>(bs: seq<Before<Req, Err>>, req: Req, st: Outcome<Err>): (Req, Outcome<Err>) {
    if bs == [] then (req, st)
    else
      var (req', st') := BeforeStep(bs[0], req, st);
      BeforeFold(bs[1..], req', st')
  }

  function HandlerStep<Req, Res, Err>(h: Handler<Req, Res, Err>, req: Req, st: Outcome<Err>): (Req, Result<Res, Err>) {
    match st
    case Passed => h(req)
    case Failed(err) => (req, Err(err))
  }

  function AfterStep<Req, Res, Err>(a: After<Req, Res, Err>, req: Req, st: Result<Res, Err>): (Req, Result<Res, Err>) {
    match st
    case Ok(res) => a.after(req, res)
    case Err(err) => a.catch(req, err)
  }

  function AfterFold<Req, Res, Err>(xs: seq<After<Req, Res, Err>>, req: Req, st: Result<Res, Err>)
    : (Req, Result<Res, Err>)
  {
    if xs == [] then (req, st)
    else
      var (req', st') := AfterStep(xs[0], req, st);
      AfterFold(xs[1..], req', st')
  }

  /** The whole chain as one left fold over the befores, the handler, one left fold over the afters. */
  function Pipeline<Req, Res, Err>(bs: seq<Before<Req, Err>>, h: Handler<Req, Res, Err>,
                                   xs: seq<After<Req, Res, Err>>, req: Req, st: Outcome<Err>)
    : (Req, Result<Res, Err>)
  {
    var (req1, st1) := BeforeFold(bs, req, st);
    var (req2, st2) := HandlerStep(h, req1, st1);
    AfterFold(xs, req2, st2)
  }

  // ---------------------------------------------------------------- the chain

  class Chain<Req, Res, Err> {
    var befores: seq<Before<Req, Err>>
    var afters: seq<After<Req, Res, Err>>
    var handler: Option<Handler<Req, Res, Err>>

    /** The source's internal invariant: there always is a handler. */
    predicate Valid()
      reads this
    {
      handler.Some?
    }

    constructor (handler: Handler<Req, Res, Err>)
      ensures Valid() && befores == [] && afters == [] && this.handler == Some(handler)
    {
      befores := [];
      afters := [];
      this.handler := Some(handler);
    }

    method Link(before: Before<Req, Err>, after: After<Req, Res, Err>)
      requires Valid()
      modifies this
      ensures Valid() && handler == old(handler)
      ensures befores == old(befores) + [before] && afters == old(afters) + [after]
    {
      befores := befores + [before];
      afters := afters + [after];
    }

    method LinkBefore(before: Before<Req, Err>)
      requires Valid()
      modifies this
      ensures Valid() && handler == old(handler) && afters == old(afters)
      ensures befores == old(befores) + [before]
    {
      befores := befores + [before];
    }

    method LinkAfter(after: After<Req, Res, Err>)
      requires Valid()
      modifies this
      ensures Valid() && handler == old(handler) && befores == old(befores)
      ensures afters == old(afters) + [after]
    {
      afters := afters + [after];
    }

    method LinkAround(around: Handler<Req, Res, Err> -> Handler<Req, Res, Err>)
      requires Valid()
      modifies this
      ensures Valid() && befores == old(befores) && afters == old(afters)
      ensures handler == Some(around(old(handler).value))
    {
      var taken := handler;
      handler := None;
      handler := Some(around(taken.value));
    }

    method Handle(req: Req) returns (out: Req, result: Result<Res, Err>)
      requires Valid()
      ensures (out, result) == Pipeline(befores, handler.value, afters, req, Passed)
    {
      out, result := ContinueFromBefore(req, 0);
      assert befores[0..] == befores;
    }

    method FailFromBefore(req: Req, index: nat, err: Err) returns (out: Req, result: Result<Res, Err>)
      requires Valid() && index <= |befores|
      ensures (out, result) == Pipeline(befores[index..], handler.value, afters, req, Failed(err))
      decreases 2, |befores| - index, 0
    {
      if index >= |befores| {
        out, result := FailFromHandler(req, err);
        return;
      }
      var rq, e := req, err;
      for i := index to |befores|
        invariant Pipeline(befores[index..], handler.value, afters, req, Failed(err))
               == Pipeline(befores[i..], handler.value, afters, rq, Failed(e))
      {
        assert befores[i..][1..] == befores[i + 1..];
        var (rq', caught) := befores[i].catch(rq, e);
        rq := rq';
        match caught {
          case Failed(err') => e := err';
          case Passed =>
            out, result := ContinueFromBefore(rq, i + 1);
            return;
        }
      }
      out, result := FailFromHandler(rq, e);
    }

    method FailFromHandler(req: Req, err: Err) returns (out: Req, result: Result<Res, Err>)
      requires Valid()
      ensures (out, result) == AfterFold(afters, req, Err(err))
      decreases 1, 0, 0
    {
      out, result := FailFromAfter(req, 0, err);
      assert afters[0..] == afters;
    }

    method FailFromAfter(req: Req, index: nat, err: Err) returns (out: Req, result: Result<Res, Err>)
      requires Valid() && index <= |afters|
      ensures (out, result) == AfterFold(afters[index..], req, Err(err))
      decreases 0, |afters| - index, 0
    {
      if index == |afters| { return req, Err(err); }
      var rq, e := req, err;
      for i := index to |afters|
        invariant AfterFold(afters[index..], req, Err(err)) == AfterFold(afters[i..], rq, Err(e))
      {
        assert afters[i..][1..] == afters[i + 1..];
        var (rq', caught) := afters[i].catch(rq, e);
        rq := rq';
        match caught {
          case Err(err') => e := err';
          case Ok(res) =>
            out, result := ContinueFromAfter(rq, i + 1, res);
            return;
        }
      }
      return rq, Err(e);
    }

    method ContinueFromBefore(req: Req, index: nat) returns (out: Req, result: Result<Res, Err>)
      requires Valid() && index <= |befores|
      ensures (out, result) == Pipeline(befores[index..], handler.value, afters, req, Passed)
      decreases 2, |befores| - index, 0
    {
      if index >= |befores| {
        out, result := ContinueFromHandler(req);
        return;
      }
      var rq := req;
      for i := index to |befores|
        invariant Pipeline(befores[index..], handler.value, afters, req, Passed)
               == Pipeline(befores[i..], handler.value, afters, rq, Passed)
      {
        assert befores[i..][1..] == befores[i + 1..];
        var (rq', passed) := befores[i].before(rq);
        rq := rq';
        match passed {
          case Passed =>
          case Failed(err) =>
            out, result := FailFromBefore(rq, i + 1, err);
            return;
        }
      }
      out, result := ContinueFromHandler(rq);
    }

    method ContinueFromHandler(req: Req) returns (out: Req, result: Result<Res, Err>)
      requires Valid()
      ensures (out, result) == var (rq, st) := HandlerStep(handler.value, req, Passed); AfterFold(afters, rq, st)
      decreases 1, 1, 0
    {
      var (rq, handled) := handler.value(req);
      match handled {
        case Ok(res) => out, result := ContinueFromAfter(rq, 0, res);
        case Err(err) => out, result := FailFromHandler(rq, err);
      }
      assert afters[0..] == afters;
    }

    method ContinueFromAfter(req: Req, index: nat, res: Res) returns (out: Req, result: Result<Res, Err>)
      requires Valid() && index <= |afters|
      ensures (out, result) == AfterFold(afters[index..], req, Ok(res))
      decreases 0, |afters| - index, 0
    {
      if index >= |afters| { return req, Ok(res); }
      var rq, r := req, res;
      for i := index to |afters|
        invariant AfterFold(afters[index..], req, Ok(res)) == AfterFold(afters[i..], rq, Ok(r))
      {
        assert afters[i..][1..] == afters[i + 1..];
        var (rq', passed) := afters[i].after(rq, r);
        rq := rq';
        match passed {
          case Ok(res') => r := res';
          case Err(err) =>
            out, result := FailFromAfter(rq, i + 1, err);
            return;
        }
      }
      return rq, Ok(r);
    }
  }

  // ---------------------------------------------------------------- each middleware is called once, in order

  /** One call: the request and the state it was handed, and those it gave back. A `before` or `after` is
      handed a state without an error, a `catch` one with an error. */
  datatype Call<Req, Res, Err> =
    | BeforeCall(index: nat, req: Req, given: Outcome<Err>, out: Req, answer: Outcome<Err>)
    | HandlerCall(req: Req, out: Req, result: Result<Res, Err>)
    | AfterCall(index: nat, req: Req, handed: Result<Res, Err>, out: Req, result: Result<Res, Err>)

  type Log<Req, Res, Err> = seq<Call<Req, Res, Err>>

  /** The same middleware, writing down each of its calls beside the request. */
  function TracedBefore<Req, Res, Err>(b: Before<Req, Err>, i: nat): Before<(Req, Log<Req, Res, Err>), Err> {
    Before(
      (rq: (Req, Log<Req, Res, Err>)) =>
        var (r, o) := b.before(rq.0); ((r, rq.1 + [BeforeCall(i, rq.0, Passed, r, o)]), o),
      (rq: (Req, Log<Req, Res, Err>), e: Err) =>
        var (r, o) := b.catch(rq.0, e); ((r, rq.1 + [BeforeCall(i, rq.0, Failed(e), r, o)]), o))
  }

  function TracedBefores<Req, Res, Err>(bs: seq<Before<Req, Err>>, i: nat): seq<Before<(Req, Log<Req, Res, Err>), Err>> {
    if bs == [] then [] else [TracedBefore(bs[0], i)] + TracedBefores(bs[1..], i + 1)
  }

  function TracedHandler<Req, Res, Err>(h: Handler<Req, Res, Err>): Handler<(Req, Log<Req, Res, Err>), Res, Err> {
    (rq: (Req, Log<Req, Res, Err>)) => var (r, o) := h(rq.0); ((r, rq.1 + [HandlerCall(rq.0, r, o)]), o)
  }

  function TracedAfter<Req, Res, Err>(a: After<Req, Res, Err>, i: nat): After<(Req, Log<Req, Res, Err>), Res, Err> {
    After(
      (rq: (Req, Log<Req, Res, Err>), res: Res) =>
        var (r, o) := a.after(rq.0, res); ((r, rq.1 + [AfterCall(i, rq.0, Ok(res), r, o)]), o),
      (rq: (Req, Log<Req, Res, Err>), e: Err) =>
        var (r, o) := a.catch(rq.0, e); ((r, rq.1 + [AfterCall(i, rq.0, Err(e), r, o)]), o))
  }

  function TracedAfters<Req, Res, Err>(xs: seq<After<Req, Res, Err>>, i: nat): seq<After<(Req, Log<Req, Res, Err>), Res, Err>> {
    if xs == [] then [] else [TracedAfter(xs[0], i)] + TracedAfters(xs[1..], i + 1)
  }

  predicate BeforesFrom<Req, Res, Err>(calls: Log<Req, Res, Err>, i: nat) {
    forall k :: 0 <= k < |calls| ==> calls[k].BeforeCall? && calls[k].index == i + k
  }

  predicate AftersFrom<Req, Res, Err>(calls: Log<Req, Res, Err>, i: nat) {
    forall k :: 0 <= k < |calls| ==> calls[k].AfterCall? && calls[k].index == i + k
  }

  /** The calls are one for each before from number `i` on, in order. The first is handed this request and
      state, every other what the one before it gave back, and the last gives back `out` and `answer`. */
  ghost predicate BeforesHandOn<Req, Res, Err>(calls: Log<Req, Res, Err>, i: nat, req: Req, st: Outcome<Err>,
                                               out: Req, answer: Outcome<Err>) {
    && BeforesFrom(calls, i)
    && (forall k :: 0 < k < |calls| ==> calls[k].req == calls[k - 1].out && calls[k].given == calls[k - 1].answer)
    && if calls == [] then out == req && answer == st
       else var (first, last) := (calls[0], calls[|calls| - 1]);
            && first.req == req && first.given == st && out == last.out && answer == last.answer
  }

  ghost predicate AftersHandOn<Req, Res, Err>(calls: Log<Req, Res, Err>, i: nat, req: Req, st: Result<Res, Err>,
                                              out: Req, result: Result<Res, Err>) {
    && AftersFrom(calls, i)
    && (forall k :: 0 < k < |calls| ==> calls[k].req == calls[k - 1].out && calls[k].handed == calls[k - 1].result)
    && if calls == [] then out == req && result == st
       else var (first, last) := (calls[0], calls[|calls| - 1]);
            && first.req == req && first.handed == st && out == last.out && result == last.result
  }

  lemma BeforesHandOnStep<Req, Res, Err>(first: Call<Req, Res, Err>, rest: Log<Req, Res, Err>, i: nat,
                                         out: Req, answer: Outcome<Err>)
    requires first.BeforeCall? && first.index == i && BeforesHandOn(rest, i + 1, first.out, first.answer, out, answer)
    ensures BeforesHandOn([first] + rest, i, first.req, first.given, out, answer)
  {
    var calls := [first] + rest;
    forall k | 0 < k < |calls|
      ensures calls[k].req == calls[k - 1].out && calls[k].given == calls[k - 1].answer
    {
      assert calls[k] == rest[k - 1] && (k > 1 ==> calls[k - 1] == rest[k - 2]);
    }
  }

  lemma AftersHandOnStep<Req, Res, Err>(first: Call<Req, Res, Err>, rest: Log<Req, Res, Err>, i: nat,
                                        out: Req, result: Result<Res, Err>)
    requires first.AfterCall? && first.index == i && AftersHandOn(rest, i + 1, first.out, first.result, out, result)
    ensures AftersHandOn([first] + rest, i, first.req, first.handed, out, result)
  {
    var calls := [first] + rest;
    forall k | 0 < k < |calls|
      ensures calls[k].req == calls[k - 1].out && calls[k].handed == calls[k - 1].result
    {
      assert calls[k] == rest[k - 1] && (k > 1 ==> calls[k - 1] == rest[k - 2]);
    }
  }

  /** What a call gives back is what the middleware answers to what it is handed: its `before` or `after` if
      no error is pending, else its `catch`. */
  ghost predicate BeforesAnswer<Req, Res, Err>(calls: Log<Req, Res, Err>, bs: seq<Before<Req, Err>>) {
    |calls| == |bs| && forall k :: 0 <= k < |calls| ==>
      && calls[k].BeforeCall?
      && (calls[k].out, calls[k].answer)
         == if calls[k].given.Passed? then bs[k].before(calls[k].req) else bs[k].catch(calls[k].req, calls[k].given.err)
  }

  ghost predicate AftersAnswer<Req, Res, Err>(calls: Log<Req, Res, Err>, xs: seq<After<Req, Res, Err>>) {
    |calls| == |xs| && forall k :: 0 <= k < |calls| ==>
      && calls[k].AfterCall?
      && (calls[k].out, calls[k].result)
         == if calls[k].handed.Ok? then xs[k].after(calls[k].req, calls[k].handed.value)
            else xs[k].catch(calls[k].req, calls[k].handed.error)
  }

  lemma TracedBeforeStep<Req, Res, Err>(b: Before<Req, Err>, i: nat, req: Req, st: Outcome<Err>, log: Log<Req, Res, Err>)
    ensures var (r, o) := if st.Passed? then b.before(req) else b.catch(req, st.err);
      && BeforeStep(b, req, st) == (r, o)
      && BeforeStep(TracedBefore(b, i), (req, log), st) == ((r, log + [BeforeCall(i, req, st, r, o)]), o)
  {
  }

  /** The calls a fold over the befores makes. */
  function BeforeCalls<Req, Res, Err>(bs: seq<Before<Req, Err>>, i: nat, req: Req, st: Outcome<Err>): Log<Req, Res, Err> {
    if bs == [] then []
    else
      var (req', st') := BeforeStep(bs[0], req, st);
      [BeforeCall(i, req, st, req', st')] + BeforeCalls(bs[1..], i + 1, req', st')
  }

  lemma {:induction false} TracedBeforeFold<Req, Res, Err>(bs: seq<Before<Req, Err>>, i: nat, req: Req, st: Outcome<Err>,
                                                           log: Log<Req, Res, Err>)
    ensures BeforeFold(TracedBefores(bs, i), (req, log), st)
         == ((BeforeFold(bs, req, st).0, log + BeforeCalls(bs, i, req, st)), BeforeFold(bs, req, st).1)
  {
    var calls: Log<Req, Res, Err> := BeforeCalls(bs, i, req, st);
    if bs == [] {
      assert log + calls == log;
    } else {
      hide BeforeStep;
      TracedBeforeStep(bs[0], i, req, st, log);
      var (req', st') := BeforeStep(bs[0], req, st);
      var log' := log + [BeforeCall(i, req, st, req', st')];
      TracedBeforeFold(bs[1..], i + 1, req', st', log');
      assert log + calls == log' + BeforeCalls(bs[1..], i + 1, req', st');
      assert TracedBefores<Req, Res, Err>(bs, i)[1..] == TracedBefores(bs[1..], i + 1);
    }
  }

  lemma {:induction false} BeforeCallsHandOn<Req, Res, Err>(bs: seq<Before<Req, Err>>, i: nat, req: Req, st: Outcome<Err>,
                                                            calls: Log<Req, Res, Err>)
    requires calls == BeforeCalls(bs, i, req, st)
    ensures BeforesHandOn(calls, i, req, st, BeforeFold(bs, req, st).0, BeforeFold(bs, req, st).1)
  {
    if bs != [] {
      hide BeforesHandOn, BeforeStep;
      var (req', st') := BeforeStep(bs[0], req, st);
      BeforeCallsHandOn(bs[1..], i + 1, req', st', calls[1..]);
      BeforesHandOnStep(calls[0], calls[1..], i, BeforeFold(bs, req, st).0, BeforeFold(bs, req, st).1);
      assert [calls[0]] + calls[1..] == calls;
    }
  }

  lemma {:induction false} BeforeCallsAnswer<Req, Res, Err>(bs: seq<Before<Req, Err>>, i: nat, req: Req, st: Outcome<Err>,
                                                            calls: Log<Req, Res, Err>)
    requires calls == BeforeCalls(bs, i, req, st)
    ensures BeforesAnswer(calls, bs)
  {
    if bs != [] {
      var (req', st') := BeforeStep(bs[0], req, st);
      BeforeCallsAnswer(bs[1..], i + 1, req', st', calls[1..]);
    }
  }

  lemma TracedAfterStep<Req, Res, Err>(a: After<Req, Res, Err>, i: nat, req: Req, st: Result<Res, Err>, log: Log<Req, Res, Err>)
    ensures var (r, o) := if st.Ok? then a.after(req, st.value) else a.catch(req, st.error);
      && AfterStep(a, req, st) == (r, o)
      && AfterStep(TracedAfter(a, i), (req, log), st) == ((r, log + [AfterCall(i, req, st, r, o)]), o)
  {
  }

  /** The calls a fold over the afters makes. */
  function AfterCalls<Req, Res, Err>(xs: seq<After<Req, Res, Err>>, i: nat, req: Req, st: Result<Res, Err>): Log<Req, Res, Err> {
    if xs == [] then []
    else
      var (req', st') := AfterStep(xs[0], req, st);
      [AfterCall(i, req, st, req', st')] + AfterCalls(xs[1..], i + 1, req', st')
  }

  lemma {:induction false} TracedAfterFold<Req, Res, Err>(xs: seq<After<Req, Res, Err>>, i: nat, req: Req, st: Result<Res, Err>,
                                                          log: Log<Req, Res, Err>)
    ensures AfterFold(TracedAfters(xs, i), (req, log), st)
         == ((AfterFold(xs, req, st).0, log + AfterCalls(xs, i, req, st)), AfterFold(xs, req, st).1)
  {
    var calls: Log<Req, Res, Err> := AfterCalls(xs, i, req, st);
    if xs == [] {
      assert log + calls == log;
    } else {
      hide AfterStep;
      TracedAfterStep(xs[0], i, req, st, log);
      var (req', st') := AfterStep(xs[0], req, st);
      var log' := log + [AfterCall(i, req, st, req', st')];
      TracedAfterFold(xs[1..], i + 1, req', st', log');
      assert log + calls == log' + AfterCalls(xs[1..], i + 1, req', st');
      assert TracedAfters(xs, i)[1..] == TracedAfters(xs[1..], i + 1);
    }
  }

  lemma {:induction false} AfterCallsHandOn<Req, Res, Err>(xs: seq<After<Req, Res, Err>>, i: nat, req: Req, st: Result<Res, Err>,
                                                           calls: Log<Req, Res, Err>)
    requires calls == AfterCalls(xs, i, req, st)
    ensures AftersHandOn(calls, i, req, st, AfterFold(xs, req, st).0, AfterFold(xs, req, st).1)
  {
    if xs != [] {
      hide AftersHandOn, AfterStep;
      var (req', st') := AfterStep(xs[0], req, st);
      AfterCallsHandOn(xs[1..], i + 1, req', st', calls[1..]);
      AftersHandOnStep(calls[0], calls[1..], i, AfterFold(xs, req, st).0, AfterFold(xs, req, st).1);
      assert [calls[0]] + calls[1..] == calls;
    }
  }

  lemma {:induction false} AfterCallsAnswer<Req, Res, Err>(xs: seq<After<Req, Res, Err>>, i: nat, req: Req, st: Result<Res, Err>,
                                                           calls: Log<Req, Res, Err>)
    requires calls == AfterCalls(xs, i, req, st)
    ensures AftersAnswer(calls, xs)
  {
    if xs != [] {
      var (req', st') := AfterStep(xs[0], req, st);
      AfterCallsAnswer(xs[1..], i + 1, req', st', calls[1..]);
    }
  }

  /** Writing the calls down changes nothing, and shows: every before is called exactly once and in order,
      then the handler exactly if no error is pending, then every after exactly once and in order; each is
      handed the request and the outcome that the one before it gave back, the handler and the afters
      included; and the chain gives back what the last one did. */
  lemma EachMiddlewareOnce<Req, Res, Err>(bs: seq<Before<Req, Err>>, h: Handler<Req, Res, Err>,
                                          xs: seq<After<Req, Res, Err>>, req: Req)
    returns (b: Log<Req, Res, Err>, m: Log<Req, Res, Err>, a: Log<Req, Res, Err>,
             req1: Req, st1: Outcome<Err>, req2: Req, st2: Result<Res, Err>)
    ensures var (rq, result) := Pipeline(TracedBefores(bs, 0), TracedHandler(h), TracedAfters(xs, 0), (req, []), Passed);
      && (rq.0, result) == Pipeline(bs, h, xs, req, Passed) && rq.1 == b + m + a
      && AftersHandOn(a, 0, req2, st2, rq.0, result)
    ensures BeforesAnswer(b, bs) && BeforesHandOn(b, 0, req, Passed, req1, st1)
    ensures st1.Passed? ==> (req2, st2) == h(req1) && m == [HandlerCall(req1, req2, st2)]
    ensures st1.Failed? ==> (req2, st2) == (req1, Err(st1.err)) && m == []
    ensures AftersAnswer(a, xs)
  {
    var (rq1, o1) := BeforeFold(bs, req, Passed);
    var (rq2, o2) := HandlerStep(h, rq1, o1);
    req1, st1, req2, st2 := rq1, o1, rq2, o2;
    hide BeforesHandOn, BeforesAnswer, AftersHandOn, AftersAnswer;
    b := BeforeCalls(bs, 0, req, Passed);
    m := if st1.Passed? then [HandlerCall(req1, req2, st2)] else [];
    a := AfterCalls(xs, 0, req2, st2);
    TracedBeforeFold<Req, Res, Err>(bs, 0, req, Passed, []);
    BeforeCallsHandOn(bs, 0, req, Passed, b);
    BeforeCallsAnswer(bs, 0, req, Passed, b);
    assert [] + b == b && (m == [] ==> b + m == b);
    TracedAfterFold(xs, 0, req2, st2, b + m);
    AfterCallsHandOn(xs, 0, req2, st2, a);
    AfterCallsAnswer(xs, 0, req2, st2, a);
  }
}

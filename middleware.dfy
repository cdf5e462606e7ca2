/**
 * The middleware chain of middleware.go: middlewares run in order until one
 * answers "stop", their errors go to the error handler, and the final
 * handler runs only when every middleware let the request through.
 */
module Middleware {
  import opened Wrappers
  import opened Http

  /** What a middleware answers, and the context it leaves behind. */
  datatype Step = Step(ok: bool, err: Option<string>, ctx: Ctx)

  type Handler = Ctx -> Step

  /** A handler value; `hasErrorHandler` says whether `ErrorHandler` is non-nil. */
  datatype MiddlewareHandler = MiddlewareHandler(hasErrorHandler: bool, middleware: seq<Handler>,
                                                 final: Option<Ctx -> Ctx>)

  /** `AddMiddleware` on a value receiver: a copy whose list is replaced by the given one. */
  function AddMiddleware(m: MiddlewareHandler, middleware: seq<Handler>): MiddlewareHandler {
    m.(middleware := middleware)
  }

  /** `SetFinal` on a value receiver: a copy with the final handler replaced. */
  function SetFinal(m: MiddlewareHandler, final: Option<Ctx -> Ctx>): MiddlewareHandler {
    m.(final := final)
  }

  /** Adding middleware replaces, rather than extends, the list, and touches nothing else. */
  lemma AddMiddlewareReplaces(m: MiddlewareHandler, first: seq<Handler>, second: seq<Handler>)
    ensures AddMiddleware(m, second).middleware == second
    ensures AddMiddleware(AddMiddleware(m, first), second) == AddMiddleware(m, second)
    ensures AddMiddleware(m, second).final == m.final && AddMiddleware(m, second).hasErrorHandler == m.hasErrorHandler
  {
  }

  lemma SetFinalReplaces(m: MiddlewareHandler, first: Option<Ctx -> Ctx>, second: Option<Ctx -> Ctx>)
    ensures SetFinal(SetFinal(m, first), second) == SetFinal(m, second)
    ensures SetFinal(m, second).middleware == m.middleware
  {
  }

  /** The context the `k`-th middleware sees, when all before it let the request through. */
  function CtxAt(ms: seq<Handler>, start: Ctx, k: nat): Ctx
    requires k <= |ms|
  {
    if k == 0 then start else ms[k - 1](CtxAt(ms, start, k - 1)).ctx
  }

  /** What the `k`-th middleware answers. */
  function StepAt(ms: seq<Handler>, start: Ctx, k: nat): Step
    requires k < |ms|
  {
    ms[k](CtxAt(ms, start, k))
  }

  /** Each of the first `n` middlewares lets the request through. */
  predicate Passes(ms: seq<Handler>, start: Ctx, n: nat)
    requires n <= |ms|
  {
    forall k :: 0 <= k < n ==> StepAt(ms, start, k).ok
  }

  /** The errors of the first `n` middlewares, in order, as the error handler receives them. */
  function Reported(ms: seq<Handler>, start: Ctx, n: nat, handler: bool): (r: seq<string>)
    requires n <= |ms|
    ensures |r| <= n
    ensures !handler ==> r == []
  {
    if n == 0 then []
    else
      var s := StepAt(ms, start, n - 1);
      Reported(ms, start, n - 1, handler) + (if handler && s.err.Some? then [s.err.value] else [])
  }

  /**
   * `Handle`: run the middlewares in order, reporting each error, and stop at
   * the first one that answers false (`stopped` is its index); otherwise run
   * the final handler when there is one.
   */
  method Handle(m: MiddlewareHandler, start: Ctx)
    returns (ctx: Ctx, reported: seq<string>, stopped: Option<nat>, finalRan: bool)
    ensures stopped.Some? ==>
      var k := stopped.value;
      k < |m.middleware| && Passes(m.middleware, start, k) && !StepAt(m.middleware, start, k).ok &&
      !finalRan && reported == Reported(m.middleware, start, k + 1, m.hasErrorHandler) &&
      ctx == CtxAt(m.middleware, start, k + 1)
    ensures stopped.None? ==>
      var n := |m.middleware|;
      Passes(m.middleware, start, n) && (finalRan <==> m.final.Some?) &&
      reported == Reported(m.middleware, start, n, m.hasErrorHandler) &&
      ctx == if finalRan then m.final.value(CtxAt(m.middleware, start, n)) else CtxAt(m.middleware, start, n)
  {
    ctx := start;
    reported := [];
    var i := 0;
    while i < |m.middleware|
      invariant 0 <= i <= |m.middleware|
      invariant ctx == CtxAt(m.middleware, start, i)
      invariant reported == Reported(m.middleware, start, i, m.hasErrorHandler)
      invariant Passes(m.middleware, start, i)
    {
      var step := m.middleware[i](ctx);
      assert step == StepAt(m.middleware, start, i);
      ctx := step.ctx;
      if step.err.Some? {
        if m.hasErrorHandler {
          reported := reported + [step.err.value];
        }
      }
      assert ctx == CtxAt(m.middleware, start, i + 1);
      assert reported == Reported(m.middleware, start, i + 1, m.hasErrorHandler);
      if !step.ok {
        return ctx, reported, Some(i), false;
      }
      i := i + 1;
    }
    stopped := None;
    finalRan := false;
    if m.final.Some? {
      ctx := m.final.value(ctx);
      finalRan := true;
    }
  }

  /** `HtmlMiddleware`: set the content type to HTML and always let the request through. */
  function HtmlMiddleware(ctx: Ctx): (s: Step)
    ensures s.ok && s.err == None
    ensures s.ctx.contentType == "text/html"
    ensures s.ctx.(contentType := ctx.contentType) == ctx
  {
    Step(true, None, ctx.(contentType := "text/html"))
  }

  /** A chain made only of `HtmlMiddleware` never stops the request and reports nothing. */
  lemma {:induction false} HtmlChainPasses(ms: seq<Handler>, start: Ctx, n: nat)
    requires n <= |ms|
    requires forall k :: 0 <= k < |ms| ==> ms[k] == HtmlMiddleware
    ensures Passes(ms, start, n)
    ensures Reported(ms, start, n, true) == []
  {
    if n > 0 {
      HtmlChainPasses(ms, start, n - 1);
      assert StepAt(ms, start, n - 1) == HtmlMiddleware(CtxAt(ms, start, n - 1));
    }
  }
}

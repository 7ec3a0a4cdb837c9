/** The nested ("onion") execution order of lib/main.ts, and what happens
    when a middleware throws, stops early or calls `next` twice. */
module Onion {
  import opened Middleware
  import opened AsyncCompose
  import Cursor

  /** A well-behaved middleware: record `before`, `await next()`, record
      `after`. */
  datatype Layer = Layer(before: seq<string>, after: seq<string>)

  function Wrap(l: Layer): Script {
    LogAll(l.before) + [CallNext] + LogAll(l.after)
  }

  function Wraps(layers: seq<Layer>): (chain: seq<Script>)
    ensures |chain| == |layers|
    ensures forall k :: 0 <= k < |layers| ==> chain[k] == Wrap(layers[k])
  {
    if layers == [] then [] else [Wrap(layers[0])] + Wraps(layers[1..])
  }

  /** Everything the layers record on the way in, outermost first. */
  function Befores(layers: seq<Layer>): seq<string> {
    if layers == [] then [] else layers[0].before + Befores(layers[1..])
  }

  /** Everything the layers record on the way out, innermost first. */
  function Afters(layers: seq<Layer>): seq<string> {
    if layers == [] then [] else Afters(layers[1..]) + layers[0].after
  }

  /** The indices lo, lo + 1, ..., hi - 1. */
  function Indices(lo: nat, hi: nat): seq<int>
    decreases hi - lo
  {
    if hi <= lo then [] else [lo] + Indices(lo + 1, hi)
  }

  lemma {:induction false} IndicesSnoc(lo: nat, hi: nat)
    requires lo <= hi
    ensures Indices(lo, hi) + [hi] == Indices(lo, hi + 1)
    decreases hi - lo
  {
    if lo < hi {
      IndicesSnoc(lo + 1, hi);
    }
  }

  /** A terminal whose body only records `t`; no terminal behaves as the
      no-op, recording nothing. */
  predicate RecordsOnly(terminal: Option<Script>, t: seq<string>) {
    (terminal == None && t == []) || terminal == Some(LogAll(t))
  }

  /** lib/main.ts:24-39. Dispatching a layer starts its index, records its
      `before` entries, runs the continuation, and, only if that resolved,
      records its `after` entries; a rejection passes through unchanged. */
  lemma DispatchLayer(chain: seq<Script>, terminal: Option<Script>, i: nat, l: Layer, st: State)
    requires i <= |chain| && Select(chain, terminal, i) == Some(Wrap(l)) && st.cursor < i
    ensures var inner := Dispatch(chain, terminal, i + 1, State(i, st.log + l.before, st.trace + [i]));
      Dispatch(chain, terminal, i, st)
        == if inner.outcome.Resolved? then Step(inner.state.(log := inner.state.log + l.after), Resolved) else inner
  {
    var st' := st.(cursor := i, trace := st.trace + [i]);
    assert Wrap(l) == LogAll(l.before) + ([CallNext] + LogAll(l.after));
    Cursor.RunLogs(chain, terminal, i, l.before, [CallNext] + LogAll(l.after), st');
    var inner := Dispatch(chain, terminal, i + 1, State(i, st.log + l.before, st.trace + [i]));
    assert ([CallNext] + LogAll(l.after))[1..] == LogAll(l.after);
    if inner.outcome.Resolved? {
      Cursor.RunLogs(chain, terminal, i, l.after, [], inner.state);
      assert LogAll(l.after) + [] == LogAll(l.after);
    }
  }

  /** The layers `layers[j..]` sitting at chain indices lo + j, ... wrap
      whatever the dispatch just below them does: their `before` entries
      come first, then that dispatch, then, if it resolved, their `after`
      entries in reverse order; if it rejected, its rejection is the result. */
  lemma {:induction false} Upstream(chain: seq<Script>, terminal: Option<Script>, lo: nat, layers: seq<Layer>, j: nat, st: State)
    requires lo + |layers| <= |chain|
    requires forall q :: 0 <= q < |layers| ==> chain[lo + q] == Wrap(layers[q])
    requires j <= |layers| && st.cursor == lo + j - 1
    ensures var k := lo + |layers|;
      var inner := Dispatch(chain, terminal, k, State(k - 1, st.log + Befores(layers[j..]), st.trace + Indices(lo + j, k)));
      Dispatch(chain, terminal, lo + j, st)
        == if inner.outcome.Resolved? then Step(inner.state.(log := inner.state.log + Afters(layers[j..])), Resolved) else inner
    decreases |layers| - j
  {
    var k := lo + |layers|;
    if j == |layers| {
      assert layers[j..] == [];
      assert State(k - 1, st.log + Befores(layers[j..]), st.trace + Indices(lo + j, k)) == st;
    } else {
      var l := layers[j];
      assert layers[j..][0] == l && layers[j..][1..] == layers[j + 1..];
      DispatchLayer(chain, terminal, lo + j, l, st);
      var st1 := State(lo + j, st.log + l.before, st.trace + [lo + j]);
      Upstream(chain, terminal, lo, layers, j + 1, st1);
      assert st1.log + Befores(layers[j + 1..]) == st.log + Befores(layers[j..]);
      assert st1.trace + Indices(lo + j + 1, k) == st.trace + Indices(lo + j, k);
    }
  }

  /** The layers at chain indices lo, lo + 1, ... wrap whatever the
      dispatch just below them does. */
  lemma Wrapped(chain: seq<Script>, terminal: Option<Script>, lo: nat, layers: seq<Layer>, st: State)
    requires lo + |layers| <= |chain|
    requires forall q :: 0 <= q < |layers| ==> chain[lo + q] == Wrap(layers[q])
    requires st.cursor == lo - 1
    ensures var k := lo + |layers|;
      var inner := Dispatch(chain, terminal, k, State(k - 1, st.log + Befores(layers), st.trace + Indices(lo, k)));
      Dispatch(chain, terminal, lo, st)
        == if inner.outcome.Resolved? then Step(inner.state.(log := inner.state.log + Afters(layers)), Resolved) else inner
  {
    assert layers[0..] == layers;
    Upstream(chain, terminal, lo, layers, 0, st);
  }

  /** lib/main.ts:20-22 with 24-39. An invocation whose chain starts with
      well-behaved layers is decided by the dispatch just below them. */
  lemma FromTop(chain: seq<Script>, terminal: Option<Script>, layers: seq<Layer>, log: seq<string>)
    requires |layers| <= |chain|
    requires forall q :: 0 <= q < |layers| ==> chain[q] == Wrap(layers[q])
    ensures var inner := Dispatch(chain, terminal, |layers|, State(|layers| - 1, log + Befores(layers), Indices(0, |layers|)));
      Invoke(Dispatcher(chain), terminal, log)
        == if inner.outcome.Resolved? then Step(inner.state.(log := inner.state.log + Afters(layers)), Resolved) else inner
  {
    var st := State(-1, log, []);
    assert State(|layers| - 1, st.log + Befores(layers), st.trace + Indices(0, |layers|))
        == State(|layers| - 1, log + Befores(layers), Indices(0, |layers|));
    Wrapped(chain, terminal, 0, layers, st);
  }

  /** A rejection just below the top layers is the invocation's outcome. */
  lemma TopRejects(chain: seq<Script>, terminal: Option<Script>, layers: seq<Layer>, log: seq<string>, r: Step)
    requires |layers| <= |chain|
    requires forall q :: 0 <= q < |layers| ==> chain[q] == Wrap(layers[q])
    requires Dispatch(chain, terminal, |layers|, State(|layers| - 1, log + Befores(layers), Indices(0, |layers|))) == r
    requires r.outcome.Rejected?
    ensures Invoke(Dispatcher(chain), terminal, log) == r
  {
    FromTop(chain, terminal, layers, log);
  }

  /** A resolution just below the top layers resolves the invocation once
      the layers have recorded their `after` entries. */
  lemma TopResolves(chain: seq<Script>, terminal: Option<Script>, layers: seq<Layer>, log: seq<string>, r: Step)
    requires |layers| <= |chain|
    requires forall q :: 0 <= q < |layers| ==> chain[q] == Wrap(layers[q])
    requires Dispatch(chain, terminal, |layers|, State(|layers| - 1, log + Befores(layers), Indices(0, |layers|))) == r
    requires r.outcome.Resolved?
    ensures Invoke(Dispatcher(chain), terminal, log) == Step(r.state.(log := r.state.log + Afters(layers)), Resolved)
  {
    FromTop(chain, terminal, layers, log);
  }

  /** lib/main.ts:24-39. A dispatch above the cursor whose selected body
      starts by recording `pre` starts index `i`, records `pre`, and goes on
      with the rest of the body. */
  lemma DispatchRecords(chain: seq<Script>, terminal: Option<Script>, i: nat, pre: seq<string>, rest: Script, st: State)
    requires i <= |chain| && Select(chain, terminal, i) == Some(LogAll(pre) + rest) && st.cursor < i
    ensures Dispatch(chain, terminal, i, st) == Run(chain, terminal, i, rest, State(i, st.log + pre, st.trace + [i]))
  {
    Cursor.RunLogs(chain, terminal, i, pre, rest, st.(cursor := i, trace := st.trace + [i]));
  }

  /** lib/main.ts:31-33. One past the last middleware the caller's terminal
      runs, or the no-op when there is none. */
  lemma TerminalRecords(chain: seq<Script>, terminal: Option<Script>, t: seq<string>, st: State)
    requires RecordsOnly(terminal, t) && st.cursor < |chain|
    ensures Dispatch(chain, terminal, |chain|, st) == Step(State(|chain|, st.log + t, st.trace + [|chain|]), Resolved)
  {
    assert LogAll([]) == [];
    assert LogAll(t) + [] == LogAll(t);
    assert Select(chain, terminal, |chain|) == Some(LogAll(t) + []);
    DispatchRecords(chain, terminal, |chain|, t, [], st);
  }

  /** Well-behaved layers filling the chain from index `lo` to its end,
      then a recording terminal: the dispatch at `lo` resolves after
      recording every `before`, the terminal's entries and every `after`
      in reverse, starting every index from `lo` up to the terminal. */
  lemma Downstream(chain: seq<Script>, terminal: Option<Script>, t: seq<string>, lo: nat, layers: seq<Layer>, st: State)
    requires lo + |layers| == |chain| && RecordsOnly(terminal, t)
    requires forall q :: 0 <= q < |layers| ==> chain[lo + q] == Wrap(layers[q])
    requires st.cursor == lo - 1
    ensures Dispatch(chain, terminal, lo, st)
      == Step(State(|chain|, st.log + Befores(layers) + t + Afters(layers), st.trace + Indices(lo, |chain| + 1)), Resolved)
  {
    var n := |chain|;
    Wrapped(chain, terminal, lo, layers, st);
    TerminalRecords(chain, terminal, t, State(n - 1, st.log + Befores(layers), st.trace + Indices(lo, n)));
    IndicesSnoc(lo, n);
  }

  /** lib/main.ts:20-39 with test.js:5-29. When every middleware records,
      calls `next` once and records again, the invocation resolves with every
      `before` in chain order, then the terminal's entries, then every
      `after` in reverse chain order; every index up to the terminal is
      started once. */
  lemma OnionOrder(layers: seq<Layer>, terminal: Option<Script>, t: seq<string>, log: seq<string>)
    requires RecordsOnly(terminal, t)
    ensures Invoke(Dispatcher(Wraps(layers)), terminal, log)
      == Step(State(|layers|, log + Befores(layers) + t + Afters(layers), Indices(0, |layers| + 1)), Resolved)
  {
    var n := |layers|;
    var stn := State(n - 1, log + Befores(layers), Indices(0, n));
    var r := Step(State(n, log + Befores(layers) + t, Indices(0, n + 1)), Resolved);
    assert Dispatch(Wraps(layers), terminal, n, stn) == r by {
      TerminalRecords(Wraps(layers), terminal, t, stn);
      IndicesSnoc(0, n);
    }
    TopResolves(Wraps(layers), terminal, layers, log, r);
  }

  /** test.js:5-29: the two-middleware scenario, composed and invoked. */
  lemma TwoMiddlewareScenario()
    ensures var input := ArrayOf([Function(Wrap(Layer(["middleware1 start"], ["middleware1 end"]))),
                                  Function(Wrap(Layer(["middleware2 start"], ["middleware2 end"])))]);
      && Compose(input).Ok?
      && Invoke(Compose(input).value, None, [])
           == Step(State(2, ["middleware1 start", "middleware2 start", "middleware2 end", "middleware1 end"], [0, 1, 2]), Resolved)
  {
    var layers := [Layer(["middleware1 start"], ["middleware1 end"]), Layer(["middleware2 start"], ["middleware2 end"])];
    var input := ArrayOf([Function(Wrap(layers[0])), Function(Wrap(layers[1]))]);
    assert Compose(input).value.chain == Wraps(layers);
    OnionOrder(layers, None, [], []);
    assert layers[1..][1..] == [];
    assert Befores(layers) == ["middleware1 start", "middleware2 start"];
    assert Afters(layers) == ["middleware2 end", "middleware1 end"];
    assert Indices(0, 3) == [0, 1, 2];
  }

  /** lib/main.ts:29-36. The terminal's own continuation dispatches one past
      it, where no function is selected: that dispatch resolves without
      running anything, so the terminal's code after `next()` still runs. */
  lemma TerminalContinuation(chain: seq<Script>, layers: seq<Layer>, term: Layer, log: seq<string>)
    requires |layers| == |chain|
    requires forall q :: 0 <= q < |layers| ==> chain[q] == Wrap(layers[q])
    ensures Invoke(Dispatcher(chain), Some(Wrap(term)), log)
      == Step(State(|chain| + 1, log + Befores(layers) + term.before + term.after + Afters(layers), Indices(0, |chain| + 2)),
              Resolved)
  {
    var n := |chain|;
    var stn := State(n - 1, log + Befores(layers), Indices(0, n));
    var r := Step(State(n + 1, log + Befores(layers) + term.before + term.after, Indices(0, n + 2)), Resolved);
    TerminalStep(chain, Some(Wrap(term)), term, stn);
    TopResolves(chain, Some(Wrap(term)), layers, log, r);
  }

  /** lib/main.ts:29-30. One past the terminal nothing is selected: the
      dispatch starts that index and resolves at once. */
  lemma PastEnd(chain: seq<Script>, terminal: Option<Script>, st: State)
    requires st.cursor <= |chain|
    ensures Dispatch(chain, terminal, |chain| + 1, st)
      == Step(State(|chain| + 1, st.log, st.trace + [|chain| + 1]), Resolved)
  {
  }

  /** A layer whose continuation resolved records its `after` entries. */
  lemma LayerResolves(chain: seq<Script>, terminal: Option<Script>, i: nat, l: Layer, st: State, inner: Step)
    requires i <= |chain| && Select(chain, terminal, i) == Some(Wrap(l)) && st.cursor < i
    requires Dispatch(chain, terminal, i + 1, State(i, st.log + l.before, st.trace + [i])) == inner
    requires inner.outcome.Resolved?
    ensures Dispatch(chain, terminal, i, st) == Step(inner.state.(log := inner.state.log + l.after), Resolved)
  {
    DispatchLayer(chain, terminal, i, l, st);
  }

  /** The dispatch of a terminal that wraps its own continuation starts the
      terminal's index and the one past it, and records both halves. */
  lemma TerminalLayer(chain: seq<Script>, terminal: Option<Script>, l: Layer, st: State)
    requires terminal == Some(Wrap(l)) && st.cursor < |chain|
    ensures var n: nat := |chain|;
      Dispatch(chain, terminal, n, st)
        == Step(State(n + 1, st.log + l.before + l.after, st.trace + [n] + [n + 1]), Resolved)
  {
    var n: nat := |chain|;
    var inner := Step(State(n + 1, st.log + l.before, st.trace + [n] + [n + 1]), Resolved);
    PastEnd(chain, terminal, State(n, st.log + l.before, st.trace + [n]));
    LayerResolves(chain, terminal, n, l, st, inner);
  }

  /** The same, from the state the top layers leave behind. */
  lemma TerminalStep(chain: seq<Script>, terminal: Option<Script>, l: Layer, st: State)
    requires terminal == Some(Wrap(l))
    requires st.cursor == |chain| - 1 && st.trace == Indices(0, |chain|)
    ensures Dispatch(chain, terminal, |chain|, st)
      == Step(State(|chain| + 1, st.log + l.before + l.after, Indices(0, |chain| + 2)), Resolved)
  {
    var n: nat := |chain|;
    assert st.trace + [n] + [n + 1] == Indices(0, n + 2) by {
      IndicesSnoc(0, n);
      IndicesSnoc(0, n + 1);
    }
    TerminalLayer(chain, terminal, l, st);
  }

  /** lib/main.ts:37-42 with test.js:33-45. When the function selected at
      index k (a middleware, or the caller's terminal when k is the length
      of the chain) throws after recording `pre`, below well-behaved layers,
      the invocation rejects with exactly that error; no index after k is
      started (the cursor stays at k), and no upstream code after `next()`
      runs. */
  lemma ThrowStops(chain: seq<Script>, terminal: Option<Script>, layers: seq<Layer>, pre: seq<string>, e: JsError,
                   rest: Script, log: seq<string>)
    requires |layers| <= |chain|
    requires forall q :: 0 <= q < |layers| ==> chain[q] == Wrap(layers[q])
    requires Select(chain, terminal, |layers|) == Some(LogAll(pre) + ([Throw(e)] + rest))
    ensures Invoke(Dispatcher(chain), terminal, log)
      == Step(State(|layers|, log + Befores(layers) + pre, Indices(0, |layers| + 1)), Rejected(e))
  {
    var k := |layers|;
    var stk := State(k - 1, log + Befores(layers), Indices(0, k));
    var r := Step(State(k, log + Befores(layers) + pre, Indices(0, k + 1)), Rejected(e));
    assert Dispatch(chain, terminal, k, stk) == r by {
      DispatchRecords(chain, terminal, k, pre, [Throw(e)] + rest, stk);
      assert ([Throw(e)] + rest)[0] == Throw(e);
      IndicesSnoc(0, k);
    }
    TopRejects(chain, terminal, layers, log, r);
  }

  /** lib/main.ts:31-33 with 37-42. A caller's terminal that throws after
      recording `pre`, below a chain of well-behaved layers, rejects the
      invocation with exactly that error, and no layer's code after
      `next()` runs. */
  lemma TerminalThrows(chain: seq<Script>, layers: seq<Layer>, pre: seq<string>, e: JsError, rest: Script, log: seq<string>)
    requires |layers| == |chain|
    requires forall q :: 0 <= q < |layers| ==> chain[q] == Wrap(layers[q])
    ensures Invoke(Dispatcher(chain), Some(LogAll(pre) + ([Throw(e)] + rest)), log)
      == Step(State(|chain|, log + Befores(layers) + pre, Indices(0, |chain| + 1)), Rejected(e))
  {
    ThrowStops(chain, Some(LogAll(pre) + ([Throw(e)] + rest)), layers, pre, e, rest, log);
  }

  /** lib/main.ts:39. A middleware that never calls `next`, below
      well-behaved layers, skips everything downstream without error: the
      invocation resolves, no index after it is started, and the upstream
      layers still unwind. */
  lemma ShortCircuit(chain: seq<Script>, terminal: Option<Script>, layers: seq<Layer>, body: seq<string>, log: seq<string>)
    requires |layers| < |chain|
    requires forall q :: 0 <= q < |layers| ==> chain[q] == Wrap(layers[q])
    requires chain[|layers|] == LogAll(body)
    ensures Invoke(Dispatcher(chain), terminal, log)
      == Step(State(|layers|, log + Befores(layers) + body + Afters(layers), Indices(0, |layers| + 1)), Resolved)
  {
    var k := |layers|;
    var stk := State(k - 1, log + Befores(layers), Indices(0, k));
    var r := Step(State(k, log + Befores(layers) + body, Indices(0, k + 1)), Resolved);
    assert Dispatch(chain, terminal, k, stk) == r by {
      assert LogAll(body) + [] == LogAll(body);
      DispatchRecords(chain, terminal, k, body, [], stk);
      IndicesSnoc(0, k);
    }
    TopResolves(chain, terminal, layers, log, r);
  }

  lemma {:induction false} IndicesAppend(a: nat, b: nat, c: nat)
    requires a <= b <= c
    ensures Indices(a, b) + Indices(b, c) == Indices(a, c)
    decreases b - a
  {
    if a < b {
      IndicesAppend(a + 1, b, c);
    }
  }

  /** The dispatch of a body that records `pre`, calls `next`, records
      `mid` and calls `next` again, above well-behaved layers and a
      recording terminal: the downstream runs once, then the second call is
      rejected. */
  lemma DoubleNextAt(chain: seq<Script>, terminal: Option<Script>, t: seq<string>,
                     k: nat, pre: seq<string>, mid: seq<string>, rest: Script, down: seq<Layer>, st: State)
    requires |chain| == k + 1 + |down| && RecordsOnly(terminal, t)
    requires chain[k] == LogAll(pre) + ([CallNext] + (LogAll(mid) + ([CallNext] + rest)))
    requires forall q :: 0 <= q < |down| ==> chain[k + 1 + q] == Wrap(down[q])
    requires st.cursor == k - 1 && st.trace == Indices(0, k)
    ensures Dispatch(chain, terminal, k, st)
      == Step(State(|chain|, st.log + pre + Befores(down) + t + Afters(down) + mid, Indices(0, |chain| + 1)),
              Rejected(Error("next() called multiple times")))
  {
    DispatchRecords(chain, terminal, k, pre, [CallNext] + (LogAll(mid) + ([CallNext] + rest)), st);
    var st1 := State(k, st.log + pre, st.trace + [k]);
    Cursor.SecondNextRejected(chain, terminal, k, mid, rest, st1);
    Downstream(chain, terminal, t, k + 1, down, st1);
    assert st1.trace + Indices(k + 1, |chain| + 1) == Indices(0, |chain| + 1) by {
      IndicesSnoc(0, k);
      IndicesAppend(0, k + 1, |chain| + 1);
    }
  }

  /** lib/main.ts:24-28 with test.js:48-61. Whichever middleware calls
      `next` a second time, after recording `mid` in between, with
      well-behaved layers above and below it and a recording terminal, the
      invocation rejects with "next() called multiple times" after the whole
      downstream has run once and `mid` was recorded; no upstream code after
      `next()` runs. */
  lemma DoubleNext(chain: seq<Script>, terminal: Option<Script>, t: seq<string>,
                   up: seq<Layer>, pre: seq<string>, mid: seq<string>, rest: Script, down: seq<Layer>, log: seq<string>)
    requires |chain| == |up| + 1 + |down| && RecordsOnly(terminal, t)
    requires forall q :: 0 <= q < |up| ==> chain[q] == Wrap(up[q])
    requires chain[|up|] == LogAll(pre) + ([CallNext] + (LogAll(mid) + ([CallNext] + rest)))
    requires forall q :: 0 <= q < |down| ==> chain[|up| + 1 + q] == Wrap(down[q])
    ensures Invoke(Dispatcher(chain), terminal, log)
      == Step(State(|chain|, log + Befores(up) + pre + Befores(down) + t + Afters(down) + mid, Indices(0, |chain| + 1)),
              Rejected(Error("next() called multiple times")))
  {
    DoubleNextBelow(chain, terminal, t, up, pre, mid, rest, down, log);
    var r := Step(State(|chain|, log + Befores(up) + pre + Befores(down) + t + Afters(down) + mid, Indices(0, |chain| + 1)),
                  Rejected(Error("next() called multiple times")));
    TopRejects(chain, terminal, up, log, r);
  }

  /** The dispatch of the middleware that calls `next` twice, from the
      state the layers above it leave behind. */
  lemma DoubleNextBelow(chain: seq<Script>, terminal: Option<Script>, t: seq<string>,
                   up: seq<Layer>, pre: seq<string>, mid: seq<string>, rest: Script, down: seq<Layer>, log: seq<string>)
    requires |chain| == |up| + 1 + |down| && RecordsOnly(terminal, t)
    requires chain[|up|] == LogAll(pre) + ([CallNext] + (LogAll(mid) + ([CallNext] + rest)))
    requires forall q :: 0 <= q < |down| ==> chain[|up| + 1 + q] == Wrap(down[q])
    ensures Dispatch(chain, terminal, |up|, State(|up| - 1, log + Befores(up), Indices(0, |up|)))
      == Step(State(|chain|, log + Befores(up) + pre + Befores(down) + t + Afters(down) + mid, Indices(0, |chain| + 1)),
              Rejected(Error("next() called multiple times")))
  {
    DoubleNextAt(chain, terminal, t, |up|, pre, mid, rest, down, State(|up| - 1, log + Befores(up), Indices(0, |up|)));
  }

  /** test.js:48-61: a single middleware calling `next` twice. */
  lemma DoubleNextScenario()
    ensures Compose(ArrayOf([Function([CallNext, CallNext])])) == Ok(Dispatcher([[CallNext, CallNext]]))
    ensures Invoke(Dispatcher([[CallNext, CallNext]]), None, []).outcome == Rejected(Error("next() called multiple times"))
  {
    var input := ArrayOf([Function([CallNext, CallNext])]);
    assert Compose(input).value.chain == [[CallNext, CallNext]];
    assert LogAll([]) == [];
    assert [[CallNext, CallNext]][0] == LogAll([]) + ([CallNext] + (LogAll([]) + ([CallNext] + [])));
    DoubleNext([[CallNext, CallNext]], None, [], [], [], [], [], [], []);
  }

  /** test.js:33-45: a single middleware that throws. */
  lemma ThrowScenario()
    ensures Compose(ArrayOf([Function([Throw(Error("Middleware Error"))])])) == Ok(Dispatcher([[Throw(Error("Middleware Error"))]]))
    ensures Invoke(Dispatcher([[Throw(Error("Middleware Error"))]]), None, []).outcome == Rejected(Error("Middleware Error"))
  {
    var input := ArrayOf([Function([Throw(Error("Middleware Error"))])]);
    assert Compose(input).value.chain == [[Throw(Error("Middleware Error"))]];
    assert LogAll([]) == [];
    assert LogAll([]) + ([Throw(Error("Middleware Error"))] + []) == [Throw(Error("Middleware Error"))];
    assert Select([[Throw(Error("Middleware Error"))]], None, 0) == Some([Throw(Error("Middleware Error"))]);
    ThrowStops([[Throw(Error("Middleware Error"))]], None, [], [], Error("Middleware Error"), [], []);
  }

  /** lib/main.ts:24-28: the single middleware `[CallNext, CallNextCatching]`
      above a recording terminal resolves, with the cursor where its first
      call left it. */
  lemma CaughtSecondNext(t: seq<string>)
    ensures Invoke(Dispatcher([[CallNext, CallNextCatching]]), Some(LogAll(t)), [])
              == Step(State(1, t, [0, 1]), Resolved)
  {
    var chain := [[CallNext, CallNextCatching]];
    var terminal := Some(LogAll(t));
    var st0 := State(0, [], [0]);
    assert Select(chain, terminal, 0) == Some([CallNext, CallNextCatching]);
    assert State(-1, [], []).(cursor := 0, trace := [] + [0]) == st0;
    assert Dispatch(chain, terminal, 0, State(-1, [], [])) == Run(chain, terminal, 0, [CallNext, CallNextCatching], st0);
    TerminalRecords(chain, terminal, t, st0);
    var first := Dispatch(chain, terminal, 1, st0);
    assert first == Step(State(1, t, [0, 1]), Resolved);
    assert [CallNext, CallNextCatching][1..] == [CallNextCatching];
    assert Run(chain, terminal, 0, [CallNext, CallNextCatching], st0) == Run(chain, terminal, 0, [CallNextCatching], first.state);
    assert Dispatch(chain, terminal, 1, first.state) == Step(first.state, Rejected(Reentrant));
    assert [CallNextCatching][1..] == [];
    assert Run(chain, terminal, 0, [CallNextCatching], first.state) == Run(chain, terminal, 0, [], first.state);
  }


  /** lib/main.ts:31-33 with test.js:64-69. An empty chain runs only the
      terminal, or the no-op, and resolves. */
  lemma EmptyChain(terminal: Option<Script>, t: seq<string>, log: seq<string>)
    requires RecordsOnly(terminal, t)
    ensures Compose(ArrayOf([])) == Ok(Dispatcher([]))
    ensures Invoke(Dispatcher([]), terminal, log) == Step(State(0, log + t, [0]), Resolved)
  {
    OnionOrder([], terminal, t, log);
  }
}

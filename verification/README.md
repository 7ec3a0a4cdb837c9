# async-compose in Dafny

This project models `AsyncCompose` from lib/main.ts. It is a Koa-style
"onion" composer. It checks that it was given an array of functions and
returns a dispatcher. Each call of the dispatcher starts a fresh `index`
cursor at -1 and runs `dispatch(0)`. `dispatch(i)` does four things:

- it rejects a reused continuation (`i <= index`);
- it advances the cursor;
- it selects the i-th middleware, the caller's `next` (or a no-op) one past
  the last middleware, or nothing beyond that;
- it runs the selection with the continuation `dispatch(i + 1)`, and turns a
  synchronous throw into a rejection.

The modules are:

- `Middleware` (middleware.dfy) holds the values the composer deals in:
  - JavaScript errors (`TypeError`, `Error`);
  - promise outcomes (`Resolved`, `Rejected`);
  - the abstract body of a middleware, a `Script` of actions. `Log(entry)`
    is an observable side effect, `CallNext` is `await next()`,
    `CallNextCatching` is `try { await next() } catch {}`, and `Throw(e)`
    throws, or returns a rejected promise.
- `AsyncCompose` (compose.dfy) is the composer:
  - `Compose` is the input validation. `Value` and `Input` tag what
    `typeof` and `Array.isArray` can tell.
  - `Select` is the selection of lines 29-36.
  - `Dispatch` and `Run` form a pure interpreter. It threads a `State`
    holding the cursor, the log the middleware write to, and the trace of
    indices whose guard passed.
  - `Invoke` is one dispatcher call.
  - `Serve` is several calls in a row that share only the caller's log.
- `Cursor` (cursor.dfy) states what the cursor guarantees:
  - the reentrancy guard;
  - monotone growth across nested calls;
  - strictly increasing started indices;
  - independence of separate invocations.
- `Onion` (onion.dfy) states the execution order:
  - the onion order of well-behaved layers;
  - the terminal and the step past it;
  - a throwing middleware, one that stops early, and one that calls `next`
    twice;
  - the cases exercised by test.js.

Termination of the mutually recursive interpreter uses the measure
`(|chain| + 2 - i, |script|)`.

The `!fn` branch of lib/main.ts:34-36 is reachable: when the terminal calls
its own continuation, `dispatch(length + 1)` finds `middleware[length + 1]`
undefined and resolves without running anything (`Select`, `Onion.PastEnd`,
`Onion.TerminalContinuation`).

## Model

| member | source | states |
|---|---|---|
| AsyncCompose.Compose | lib/main.ts:6-19 | A non-array is rejected with TypeError "Middleware stack must be an array!". An array with any non-function element is rejected with TypeError "Middleware must be composed of functions!". Otherwise a dispatcher is returned whose chain is exactly the given functions, in order. |
| AsyncCompose.Bodies | lib/main.ts:14-18 | The loop over the elements succeeds if and only if every element is a function. It then yields each element's body at the same position. |
| AsyncCompose.Select | lib/main.ts:29-36 | A function is selected exactly for indices up to one past the last middleware. Only beyond that is the `!fn` branch taken. |
| Cursor.DispatchFrame | lib/main.ts:24-28 | A dispatch at or below the cursor rejects with "next() called multiple times" and leaves the state untouched. Any other dispatch starts its own index first and leaves the cursor at or above it. In every case the log only grows, the cursor never moves back, only indices from `i` to one past the terminal are started, and a valid cursor stays valid. |
| Cursor.RunFrame | lib/main.ts:37-39 | Running the function selected at index `i`, whatever it does, only starts indices above `i` and never moves the cursor back or loses a log entry. |
| Cursor.CursorIncreases | lib/main.ts:20-28 | In one invocation the cursor takes strictly increasing values. The first is 0, none exceeds one past the terminal, and the final cursor is the last index started, so no index runs twice. The caller's log is only appended to. |
| Cursor.SecondNextRejected | lib/main.ts:24-28 | A body that calls its continuation, records any entries and calls it again is rejected, whatever the chain. It gets the first call's rejection if that call rejected, and otherwise "next() called multiple times", raised after the first call's effects and the entries in between. |
| Cursor.CaughtReuse | lib/main.ts:24-28 | The guard rejects only the reused call. A body that calls its continuation, records any entries and then catches the rejection of a second call goes on with the rest of its body from the state the first call and those entries left, whatever the chain; the cursor is where the first call left it. |
| Cursor.InvokeIndependent | lib/main.ts:20-22 | Each invocation starts from its own cursor at -1. Its outcome, final cursor and started indices do not depend on what the shared log already held, and it only appends to that log. |
| Cursor.ServeIndependent | lib/main.ts:20-22 | In a sequence of invocations of one dispatcher, each outcome equals the outcome of that invocation on its own. |
| Onion.DispatchLayer | lib/main.ts:24-39 | Dispatching a layer that records, awaits `next` and records again starts its index and records its `before` entries. It then runs the continuation, and records its `after` entries only if the continuation resolved. A rejection passes through unchanged. |
| Onion.Upstream | lib/main.ts:24-39 | A run of such layers wraps the dispatch just below them. Their `before` entries come first, outermost first. Their `after` entries follow in reverse, and only on resolution. A rejection from below is the result. |
| Onion.DispatchRecords | lib/main.ts:24-39 | A dispatch above the cursor, whose selected body starts by recording, starts its index, records those entries and goes on with the rest of the body. |
| Onion.TerminalRecords | lib/main.ts:31-33 | One past the last middleware a caller's terminal that only records runs, or the no-op (which records nothing) when there is none. A throwing terminal is covered by Onion.ThrowStops and Onion.TerminalThrows. |
| Onion.OnionOrder | lib/main.ts:20-39 | When every middleware records, calls `next` once and records again, the invocation resolves. The log holds every `before` in chain order, then the terminal's entries, then every `after` in reverse chain order. Exactly the indices 0 to the terminal are started, each once. |
| Onion.TwoMiddlewareScenario | test.js:5-29 | The two-middleware composition of the test resolves with the log "middleware1 start", "middleware2 start", "middleware2 end", "middleware1 end". |
| Onion.PastEnd | lib/main.ts:28-36 | Past the terminal no function is selected. The dispatch still advances the cursor, runs nothing and resolves. |
| Onion.TerminalLayer | lib/main.ts:29-39 | A terminal that awaits its own continuation starts its index and the one past it. It records both halves of its body and resolves. |
| Onion.TerminalContinuation | lib/main.ts:29-36 | Below well-behaved layers, a terminal that calls its continuation still completes its code after `next()`. The invocation resolves after starting the index past the terminal, and the layers unwind in reverse. |
| Onion.ThrowStops | lib/main.ts:29-42 | When the function selected at index k throws after recording, below well-behaved layers, the invocation rejects with exactly that error. The thrower may be a middleware or, when k is the length of the chain, the caller's terminal. No index after k is started, and no upstream code after `next()` runs. |
| Onion.TerminalThrows | lib/main.ts:31-42 | A caller's terminal that throws below a chain of well-behaved layers rejects the invocation with exactly that error, and no layer's code after `next()` runs. |
| Onion.ThrowScenario | test.js:33-45 | The single throwing middleware of the test rejects the invocation with Error "Middleware Error". |
| Onion.ShortCircuit | lib/main.ts:37-39 | A middleware that never calls `next` skips everything downstream without error. The invocation resolves, no later index is started, and the upstream layers still unwind. |
| Onion.DoubleNext | lib/main.ts:24-28 | When one middleware calls `next`, records any entries and calls `next` again, between well-behaved layers and above a recording terminal, the downstream runs exactly once. The invocation then rejects with "next() called multiple times" after the entries in between, and no upstream code after `next()` runs. |
| Onion.DoubleNextScenario | test.js:48-61 | The composition of the test's single middleware calling `next` twice rejects with "next() called multiple times". |
| Onion.CaughtSecondNext | lib/main.ts:24-28 | The single middleware that awaits `next` and then catches the rejection of a second call, above a recording terminal, resolves with the cursor where its first call left it. |
| Onion.EmptyChain | test.js:64-69 | An empty array composes. Invoking it runs only the terminal, or the no-op, and resolves. |

## Left out

- Promise scheduling and microtask order. Each dispatch is a synchronous call returning an outcome, because awaited calls nest exactly as the model's recursion does.
- A continuation that is called but not awaited, or fired concurrently, is not expressible in a `Script`. Those interleavings are a matter of the event loop, not of the composer.
- The context object is never inspected by lib/main.ts. Scripts do not read it, so a middleware whose behaviour depends on the context is represented by the script it happens to run.
- The caller's `next` is a script like any middleware. A terminal that is given but falsy is not distinguished from a missing one.
- JavaScript dynamic typing beyond `Array.isArray` and `typeof fn === 'function'` is reduced to the tags of `Value` and `Input`.
- Mutation of the middleware array after `AsyncCompose` returned is not modelled. The dispatcher holds an immutable copy of the validated chain.
- `Dispatch` requires `i <= |chain| + 1`. Only the dispatcher (i = 0) and the continuation of a selected function call it, so larger indices never occur.
- Onion.DoubleNext: stated for layers that record, call `next` once and record again, a terminal that only records, and only recording between the two calls. Cursor.SecondNextRejected holds for any chain and terminal, but still only for recording between the two calls; Cursor.DispatchFrame states the guard for any dispatch.
- Onion.ThrowStops and Onion.ShortCircuit: stated for layers above the thrower or the short-circuiting middleware that record, call `next` once and record again.
- src/main.ts is a demo that only prints. It is not part of this model.

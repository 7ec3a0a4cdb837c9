/** The composer of lib/main.ts: input validation, the dispatcher it returns,
    and the `dispatch(i)` step, as a pure interpreter over middleware scripts. */
module AsyncCompose {
  import opened Middleware

  const NotArrayMessage := "Middleware stack must be an array!"
  const NotFunctionMessage := "Middleware must be composed of functions!"
  const ReentrantMessage := "next() called multiple times"

  /** The rejection `dispatch` produces when a continuation is reused. */
  const Reentrant := Error(ReentrantMessage)

  /** A JavaScript value as far as `typeof v === 'function'` can tell. */
  datatype Value = Function(body: Script) | NotFunction

  /** The argument of the composer, as far as `Array.isArray` can tell. */
  datatype Input = ArrayOf(elements: seq<Value>) | NotArray

  /** The function the composer returns, closing over the validated chain. */
  datatype Dispatcher = Dispatcher(chain: seq<Script>)

  /** The state one dispatcher invocation threads through its nested calls:
      `cursor` is the closure variable `index`; `log` is what the middleware
      have recorded so far; `trace` lists, in order, every index whose
      dispatch passed the reentrancy guard. */
  datatype State = State(cursor: int, log: seq<string>, trace: seq<int>)

  /** The state after a call together with how its promise settled. */
  datatype Step = Step(state: State, outcome: Outcome)

  predicate AllFunctions(elements: seq<Value>) {
    forall k :: 0 <= k < |elements| ==> elements[k].Function?
  }

  /** The bodies of `elements`, or `None` as soon as one is not a function. */
  function Bodies(elements: seq<Value>): (r: Option<seq<Script>>)
    ensures r.Some? <==> AllFunctions(elements)
    ensures r.Some? ==> |r.value| == |elements|
    ensures r.Some? ==> forall k :: 0 <= k < |elements| ==> r.value[k] == elements[k].body
  {
    if elements == [] then Some([])
    else
      match elements[0]
      case NotFunction => None
      case Function(body) =>
        match Bodies(elements[1..])
        case None => None
        case Some(rest) => Some([body] + rest)
  }

  /** `AsyncCompose(middleware)`: throws a `TypeError` for a non-array or for
      an element that is not a function, and otherwise returns a dispatcher
      over exactly the given functions, in order. */
  function Compose(input: Input): (r: Result<Dispatcher>)
    ensures input.NotArray? ==> r == Err(TypeError(NotArrayMessage))
    ensures input.ArrayOf? && !AllFunctions(input.elements) ==> r == Err(TypeError(NotFunctionMessage))
    ensures input.ArrayOf? && AllFunctions(input.elements) ==>
              && r.Ok?
              && |r.value.chain| == |input.elements|
              && forall k :: 0 <= k < |input.elements| ==> r.value.chain[k] == input.elements[k].body
  {
    match input
    case NotArray => Err(TypeError(NotArrayMessage))
    case ArrayOf(elements) =>
      match Bodies(elements)
      case None => Err(TypeError(NotFunctionMessage))
      case Some(chain) => Ok(Dispatcher(chain))
  }

  /** The function `dispatch(i)` runs once its guard has passed: the i-th
      middleware, the caller's `next` (or a no-op, the empty script) one past
      the last middleware, and nothing beyond that. */
  function Select(chain: seq<Script>, terminal: Option<Script>, i: nat): (f: Option<Script>)
    ensures f.Some? <==> i <= |chain|
  {
    if i < |chain| then Some(chain[i])
    else if i == |chain| then
      match terminal
      case Some(next) => Some(next)
      case None => Some([])
    else None
  }

  /** `dispatch(i)`. The only callers are the dispatcher itself (i = 0) and
      the continuation handed to a selected function at index i - 1, which
      exists only for i - 1 <= |chain|; hence the bound on `i`. */
  function Dispatch(chain: seq<Script>, terminal: Option<Script>, i: nat, st: State): Step
    requires i <= |chain| + 1
    decreases |chain| + 2 - i
  {
    if i <= st.cursor then Step(st, Rejected(Reentrant))
    else
      var st' := st.(cursor := i, trace := st.trace + [i]);
      match Select(chain, terminal, i)
      case None => Step(st', Resolved)
      case Some(f) => Run(chain, terminal, i, f, st')
  }

  /** Runs `script`, the body of the function selected at index `i`; its
      continuation is `dispatch(i + 1)`. A throw settles the body at once. */
  function Run(chain: seq<Script>, terminal: Option<Script>, i: nat, script: Script, st: State): Step
    requires i <= |chain|
    decreases |chain| + 2 - i, |script|
  {
    if script == [] then Step(st, Resolved)
    else
      match script[0]
      case Log(entry) => Run(chain, terminal, i, script[1..], st.(log := st.log + [entry]))
      case Throw(error) => Step(st, Rejected(error))
      case CallNext =>
        var r := Dispatch(chain, terminal, i + 1, st);
        if r.outcome.Rejected? then r else Run(chain, terminal, i, script[1..], r.state)
      case CallNextCatching =>
        var r := Dispatch(chain, terminal, i + 1, st);
        Run(chain, terminal, i, script[1..], r.state)
  }

  /** One call `dispatcher(context, next)`: a fresh cursor at -1, then
      `dispatch(0)`. `log` is whatever the caller's shared context already
      holds; the context itself is never inspected. */
  function Invoke(d: Dispatcher, terminal: Option<Script>, log: seq<string>): Step {
    Dispatch(d.chain, terminal, 0, State(-1, log, []))
  }

  /** Several invocations of one dispatcher in a row, sharing only the
      caller's log; one terminal per invocation. */
  function Serve(d: Dispatcher, terminals: seq<Option<Script>>, log: seq<string>): (outcomes: seq<Outcome>)
    ensures |outcomes| == |terminals|
  {
    if terminals == [] then []
    else
      var r := Invoke(d, terminals[0], log);
      [r.outcome] + Serve(d, terminals[1..], r.state.log)
  }
}

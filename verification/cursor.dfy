/** What the `index` cursor of lib/main.ts guarantees: the reentrancy guard,
    monotone growth across nested calls, each index started at most once and
    in ascending order, and independence of separate invocations. */
module Cursor {
  import opened Middleware
  import opened AsyncCompose

  ghost predicate Increasing(t: seq<int>) {
    forall a, b :: 0 <= a < b < |t| ==> t[a] < t[b]
  }

  /** The cursor is the last started index (-1 before any), and indices were
      started in strictly ascending order. */
  ghost predicate Valid(st: State) {
    && Increasing(st.trace)
    && st.cursor == (if st.trace == [] then -1 else st.trace[|st.trace| - 1])
  }

  /** `b` is a later state of the same invocation as `a`: nothing recorded
      is lost, the cursor has not moved back, every index started in between
      lies in [lo, hi], and validity is kept. */
  ghost predicate Grows(a: State, b: State, lo: int, hi: int) {
    && a.cursor <= b.cursor
    && a.log <= b.log
    && a.trace <= b.trace
    && (forall k :: |a.trace| <= k < |b.trace| ==> lo <= b.trace[k] <= hi)
    && (Valid(a) ==> Valid(b))
  }

  lemma GrowsTrans(a: State, b: State, c: State, lo: int, hi: int)
    requires Grows(a, b, lo, hi) && Grows(b, c, lo, hi)
    ensures Grows(a, c, lo, hi)
  {
    forall k | |a.trace| <= k < |c.trace|
      ensures lo <= c.trace[k] <= hi
    {
      if k < |b.trace| {
        assert c.trace[k] == b.trace[k];
      }
    }
  }

  /** Starting index `i` above the cursor keeps a valid state valid. */
  lemma StartKeepsValid(st: State, i: nat)
    requires Valid(st) && st.cursor < i
    ensures Valid(st.(cursor := i, trace := st.trace + [i]))
  {
    var t := st.trace + [i];
    forall a, b | 0 <= a < b < |t|
      ensures t[a] < t[b]
    {
      if b == |t| - 1 && a < |st.trace| - 1 {
        assert st.trace[a] < st.trace[|st.trace| - 1];
      }
    }
  }

  /** lib/main.ts:24-28. A dispatch at or below the cursor rejects with
      "next() called multiple times" and changes nothing; any other dispatch
      starts index `i` first, leaves the cursor at or above `i`, and starts
      only indices between `i` and one past the terminal. */
  lemma {:induction false} DispatchFrame(chain: seq<Script>, terminal: Option<Script>, i: nat, st: State)
    requires i <= |chain| + 1
    ensures var r := Dispatch(chain, terminal, i, st);
      && Grows(st, r.state, i, |chain| + 1)
      && (i <= st.cursor ==> r == Step(st, Rejected(Error("next() called multiple times"))))
      && (st.cursor < i ==> i <= r.state.cursor && |st.trace| < |r.state.trace| && r.state.trace[|st.trace|] == i)
    decreases |chain| + 2 - i
  {
    if st.cursor < i {
      var st' := st.(cursor := i, trace := st.trace + [i]);
      if Valid(st) {
        StartKeepsValid(st, i);
      }
      assert Grows(st, st', i, |chain| + 1);
      match Select(chain, terminal, i)
      case None =>
      case Some(f) =>
        RunFrame(chain, terminal, i, f, st');
        GrowsTrans(st, st', Run(chain, terminal, i, f, st').state, i, |chain| + 1);
    }
  }

  /** The body of the function selected at index `i` only ever starts
      indices above `i`, and never moves the cursor back. */
  lemma {:induction false} RunFrame(chain: seq<Script>, terminal: Option<Script>, i: nat, script: Script, st: State)
    requires i <= |chain|
    ensures Grows(st, Run(chain, terminal, i, script, st).state, i + 1, |chain| + 1)
    decreases |chain| + 2 - i, |script|
  {
    if script != [] {
      match script[0]
      case Log(entry) =>
        var st' := st.(log := st.log + [entry]);
        RunFrame(chain, terminal, i, script[1..], st');
        GrowsTrans(st, st', Run(chain, terminal, i, script[1..], st').state, i + 1, |chain| + 1);
      case Throw(error) =>
      case CallNext =>
        var r := Dispatch(chain, terminal, i + 1, st);
        DispatchFrame(chain, terminal, i + 1, st);
        if r.outcome.Resolved? {
          RunFrame(chain, terminal, i, script[1..], r.state);
          GrowsTrans(st, r.state, Run(chain, terminal, i, script[1..], r.state).state, i + 1, |chain| + 1);
        }
      case CallNextCatching =>
        var r := Dispatch(chain, terminal, i + 1, st);
        DispatchFrame(chain, terminal, i + 1, st);
        RunFrame(chain, terminal, i, script[1..], r.state);
        GrowsTrans(st, r.state, Run(chain, terminal, i, script[1..], r.state).state, i + 1, |chain| + 1);
    }
  }

  /** lib/main.ts:20-28. Within one invocation the cursor only ever takes
      strictly increasing values: every index is started at most once, in
      ascending order, the first being 0 and none beyond one past the
      terminal; the final cursor is the last index started. */
  lemma CursorIncreases(d: Dispatcher, terminal: Option<Script>, log: seq<string>)
    ensures var r := Invoke(d, terminal, log);
      && Increasing(r.state.trace)
      && |r.state.trace| > 0 && r.state.trace[0] == 0
      && r.state.cursor == r.state.trace[|r.state.trace| - 1]
      && (forall k :: 0 <= k < |r.state.trace| ==> r.state.trace[k] <= |d.chain| + 1)
      && log <= r.state.log
  {
    DispatchFrame(d.chain, terminal, 0, State(-1, log, []));
  }

  /** A recording step appends its entry and goes on. */
  lemma RunLog(chain: seq<Script>, terminal: Option<Script>, i: nat, entry: string, rest: Script, st: State)
    requires i <= |chain|
    ensures Run(chain, terminal, i, [Log(entry)] + rest, st) == Run(chain, terminal, i, rest, st.(log := st.log + [entry]))
  {
    assert ([Log(entry)] + rest)[1..] == rest;
  }

  /** Recording steps run one after another, each appending its entry. */
  lemma {:induction false} RunLogs(chain: seq<Script>, terminal: Option<Script>, i: nat, entries: seq<string>, rest: Script, st: State)
    requires i <= |chain|
    ensures Run(chain, terminal, i, LogAll(entries) + rest, st) == Run(chain, terminal, i, rest, st.(log := st.log + entries))
    decreases |entries|
  {
    if entries == [] {
      assert LogAll(entries) + rest == rest;
      assert st.(log := st.log + entries) == st;
    } else {
      var st1 := st.(log := st.log + [entries[0]]);
      assert LogAll(entries) + rest == [Log(entries[0])] + (LogAll(entries[1..]) + rest);
      RunLog(chain, terminal, i, entries[0], LogAll(entries[1..]) + rest, st);
      RunLogs(chain, terminal, i, entries[1..], rest, st1);
      assert st1.(log := st1.log + entries[1..]) == st.(log := st.log + entries);
    }
  }

  /** lib/main.ts:24-28 with test.js:48-61. Whatever the chain, a body that
      calls its continuation, records `mid` and calls the continuation again
      is rejected: with the first call's rejection if it had one, and
      otherwise with "next() called multiple times", after the first call's
      effects and `mid`. */
  lemma SecondNextRejected(chain: seq<Script>, terminal: Option<Script>, i: nat, mid: seq<string>, rest: Script, st: State)
    requires i <= |chain| && i <= st.cursor
    ensures var first := Dispatch(chain, terminal, i + 1, st);
      Run(chain, terminal, i, [CallNext] + (LogAll(mid) + ([CallNext] + rest)), st)
        == if first.outcome.Rejected? then first
           else Step(first.state.(log := first.state.log + mid), Rejected(Error("next() called multiple times")))
  {
    var script := [CallNext] + (LogAll(mid) + ([CallNext] + rest));
    assert script[0] == CallNext && script[1..] == LogAll(mid) + ([CallNext] + rest);
    DispatchFrame(chain, terminal, i + 1, st);
    var first := Dispatch(chain, terminal, i + 1, st);
    if first.outcome.Resolved? {
      var st2 := first.state.(log := first.state.log + mid);
      RunLogs(chain, terminal, i, mid, [CallNext] + rest, first.state);
      assert ([CallNext] + rest)[0] == CallNext;
      DispatchFrame(chain, terminal, i + 1, st2);
    }
  }

  /** lib/main.ts:24-28. The guard rejects only the reused call: a body that
      calls its continuation, records `mid` and then catches the rejection
      of a second call goes on with the rest of its body, from the state
      the first call and `mid` left, cursor included. */
  lemma CaughtReuse(chain: seq<Script>, terminal: Option<Script>, i: nat, mid: seq<string>, rest: Script, st: State)
    requires i <= |chain| && i <= st.cursor
    ensures var first := Dispatch(chain, terminal, i + 1, st);
      Run(chain, terminal, i, [CallNext] + (LogAll(mid) + ([CallNextCatching] + rest)), st)
        == if first.outcome.Rejected? then first
           else Run(chain, terminal, i, rest, first.state.(log := first.state.log + mid))
  {
    var script := [CallNext] + (LogAll(mid) + ([CallNextCatching] + rest));
    assert script[0] == CallNext && script[1..] == LogAll(mid) + ([CallNextCatching] + rest);
    DispatchFrame(chain, terminal, i + 1, st);
    var first := Dispatch(chain, terminal, i + 1, st);
    if first.outcome.Resolved? {
      var st2 := first.state.(log := first.state.log + mid);
      RunLogs(chain, terminal, i, mid, [CallNextCatching] + rest, first.state);
      assert ([CallNextCatching] + rest)[0] == CallNextCatching && ([CallNextCatching] + rest)[1..] == rest;
      DispatchFrame(chain, terminal, i + 1, st2);
    }
  }

  function Shift(r: Step, prefix: seq<string>): Step {
    Step(r.state.(log := prefix + r.state.log), r.outcome)
  }

  /** Dispatch never reads the log: what was recorded before only prefixes
      what is recorded now, and the outcome is the same. */
  lemma {:induction false} DispatchShift(chain: seq<Script>, terminal: Option<Script>, i: nat, st: State, prefix: seq<string>)
    requires i <= |chain| + 1
    ensures Dispatch(chain, terminal, i, st.(log := prefix + st.log)) == Shift(Dispatch(chain, terminal, i, st), prefix)
    decreases |chain| + 2 - i
  {
    if st.cursor < i {
      var st' := st.(cursor := i, trace := st.trace + [i]);
      match Select(chain, terminal, i)
      case None =>
      case Some(f) => RunShift(chain, terminal, i, f, st', prefix);
    }
  }

  lemma {:induction false} RunShift(chain: seq<Script>, terminal: Option<Script>, i: nat, script: Script, st: State, prefix: seq<string>)
    requires i <= |chain|
    ensures Run(chain, terminal, i, script, st.(log := prefix + st.log)) == Shift(Run(chain, terminal, i, script, st), prefix)
    decreases |chain| + 2 - i, |script|
  {
    if script != [] {
      match script[0]
      case Log(entry) =>
        assert prefix + st.log + [entry] == prefix + (st.log + [entry]);
        RunShift(chain, terminal, i, script[1..], st.(log := st.log + [entry]), prefix);
      case Throw(error) =>
      case CallNext =>
        DispatchShift(chain, terminal, i + 1, st, prefix);
        var r := Dispatch(chain, terminal, i + 1, st);
        if r.outcome.Resolved? {
          RunShift(chain, terminal, i, script[1..], r.state, prefix);
        }
      case CallNextCatching =>
        DispatchShift(chain, terminal, i + 1, st, prefix);
        var r := Dispatch(chain, terminal, i + 1, st);
        RunShift(chain, terminal, i, script[1..], r.state, prefix);
    }
  }

  /** lib/main.ts:20-22. Every invocation starts from its own cursor at -1:
      its outcome, cursor and started indices do not depend on what the
      shared log already held, and it only appends to that log. */
  lemma InvokeIndependent(d: Dispatcher, terminal: Option<Script>, log: seq<string>)
    ensures var alone := Invoke(d, terminal, []);
      var r := Invoke(d, terminal, log);
      && r.outcome == alone.outcome
      && r.state.cursor == alone.state.cursor
      && r.state.trace == alone.state.trace
      && r.state.log == log + alone.state.log
  {
    DispatchShift(d.chain, terminal, 0, State(-1, [], []), log);
    assert State(-1, [], []).(log := log + []) == State(-1, log, []);
  }

  /** lib/main.ts:20-22. In a run of invocations of one dispatcher, each
      outcome is the one that invocation would have on its own. */
  lemma {:induction false} ServeIndependent(d: Dispatcher, terminals: seq<Option<Script>>, log: seq<string>)
    ensures forall k :: 0 <= k < |terminals| ==> Serve(d, terminals, log)[k] == Invoke(d, terminals[k], []).outcome
    decreases |terminals|
  {
    if terminals != [] {
      var r := Invoke(d, terminals[0], log);
      InvokeIndependent(d, terminals[0], log);
      ServeIndependent(d, terminals[1..], r.state.log);
      forall k | 1 <= k < |terminals|
        ensures Serve(d, terminals, log)[k] == Invoke(d, terminals[k], []).outcome
      {
        assert terminals[1..][k - 1] == terminals[k];
      }
    }
  }
}

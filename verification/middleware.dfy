/** Values a middleware deals in: the errors it may raise, the outcome of a
    promise, and the abstract script that stands for a middleware's body. */
module Middleware {

  /** A JavaScript error object: the composer raises `TypeError`s when it
      validates its input and plain `Error`s when `next` is reused; a
      middleware may throw either. Only the class and the message matter. */
  datatype JsError = TypeError(message: string) | Error(message: string)

  /** The settled state of a `Promise<void>`. */
  datatype Outcome = Resolved | Rejected(error: JsError)

  /** A possibly missing value: the caller's optional `next`, or the
      bodies of an array once every element turned out to be a function. */
  datatype Option<T> = None | Some(value: T)

  /** The result of a synchronous call that either returns or throws. */
  datatype Result<T> = Ok(value: T) | Err(error: JsError)

  /** One step of a middleware body, in the order the body performs it. */
  datatype Action =
      /** An observable side effect, such as pushing onto a shared log. */
    | Log(entry: string)
      /** `await next()`: a rejection of the continuation rejects this body too. */
    | CallNext
      /** `try { await next() } catch {}`: a rejection of the continuation is swallowed. */
    | CallNextCatching
      /** `throw error`, or returning a promise rejected with `error`. */
    | Throw(error: JsError)

  /** The body of a middleware (or of the caller's terminal `next`). */
  type Script = seq<Action>

  /** A body that only records `entries`, in order. */
  function LogAll(entries: seq<string>): Script {
    if entries == [] then [] else [Log(entries[0])] + LogAll(entries[1..])
  }
}

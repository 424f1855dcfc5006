/**
 * Values shared by every part of the model: an optional value (Python's
 * `None`), the handlers that topics are bound to, and the tasks the
 * application starts.
 */
module Common {

  /** A value that may be absent; `None` stands for Python's `None`. */
  datatype Option<T> = None | Some(value: T)

  /** A bus topic name. */
  type Topic = string

  /**
   * A message handler registered for a topic. Python compares handlers by
   * object identity, so a handler is modelled by an identity number.
   */
  datatype Handler = Handler(id: nat)

  /**
   * A task callable. `isCoroutine` records what `asyncio.iscoroutinefunction`
   * would answer for it: true for an `async def` function.
   */
  datatype Task = Task(id: nat, isCoroutine: bool)
}

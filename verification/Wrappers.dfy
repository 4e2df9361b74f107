/** Result types shared by every module, and the fixed-width integers of the source. */
module Wrappers {
  datatype Option<+T> = None | Some(value: T)

  datatype Result<+T, +E> = Ok(value: T) | Err(error: E)

  type u16 = x: int | 0 <= x < 0x1_0000
  type u32 = x: int | 0 <= x < 0x1_0000_0000
  type u64 = x: int | 0 <= x < 0x1_0000_0000_0000_0000
}

/** Histories: what happened, oldest first, grown at the end. Every statement about whole runs is a
  statement about a `History` of calls, requests or messages.
*/
module Histories {
  datatype History<+T> = Start | Then(past: History<T>, last: T)

  function Length<T>(h: History<T>): nat {
    match h
    case Start => 0
    case Then(past, _) => Length(past) + 1
  }

  /** The element `k` positions before the newest one. */
  function Back<T>(h: History<T>, k: nat): T
    requires k < Length(h)
  {
    if k == 0 then h.last else Back(h.past, k - 1)
  }

  ghost predicate Every<T(!new)>(h: History<T>, p: T -> bool) {
    h.Then? ==> p(h.last) && Every(h.past, p)
  }
}

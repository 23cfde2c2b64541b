/** Shared by all modules: a value that may be absent, a truth value as a count, a sequence less one element. */
module Options {
  datatype Option<+T> = None | Some(value: T)

  /** A truth value as a count. */
  function Count(b: bool): nat {
    if b then 1 else 0
  }

  /** `s` without its element at `k`. */
  function RemoveAt<T>(s: seq<T>, k: nat): (r: seq<T>)
    requires k < |s|
  {
    s[..k] + s[k + 1..]
  }
}

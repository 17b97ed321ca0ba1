/** Options, error numbers and small facts that several modules share. */
module Common {

  datatype Option<T> = None | Some(value: T)

  const EIO := 5
  const EAGAIN := 11
  const EBUSY := 16
  const ENODEV := 19
  const EINVAL := 22
  const ESHUTDOWN := 108

  function Min(a: nat, b: nat): nat {
    if a < b then a else b
  }

  lemma Assoc<A>(a: seq<A>, b: seq<A>, c: seq<A>)
    ensures a + (b + c) == (a + b) + c
  {
  }
}

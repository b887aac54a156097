/** Types shared by every part of the model: optional values and results, the
    fixed-width integers of the Rust side, and the record of callback invocations
    that stands in for boxed closures. */
module Common {

  datatype Option<+T> = None | Some(value: T)

  datatype Result<+T, +E> = Ok(value: T) | Err(error: E)

  /** How a command fails: the error string or code it returns, or a panic where it
      unwraps a failed operation. */
  datatype Failure = Message(text: string) | Code(code: u32) | Panic

  /** Rust's `u8`, `u16` and `u32`, as the integers they are compared and stored as. */
  type u8 = x: int | 0 <= x < 0x100
  type u16 = x: int | 0 <= x < 0x1_0000
  type u32 = x: int | 0 <= x < 0x1_0000_0000

  /** One byte from the serial link. */
  type byte = u8

  /** `String::from_utf8(vec![b])`: a lone byte is valid UTF-8 exactly when it is ASCII,
      and then it decodes to the character with that code. */
  function Utf8Char(b: byte): (c: Option<char>)
    ensures c.Some? <==> b < 0x80
    ensures c.Some? ==> c.value as int == b
  {
    if b < 0x80 then Some(b as char) else None
  }

  /** `String::from_utf8(vec![b]).unwrap_or("".to_string())`. */
  function Msg(b: byte): (msg: string)
    ensures |msg| <= 1
    ensures forall c: char :: msg == [c] <==> b < 0x80 && c as int == b
  {
    match Utf8Char(b)
    case Some(c) => [c]
    case None => ""
  }

  /** A registered callback. A closure is known only by its identity: calling it is
      recorded in a `Trace`, which is all the surrounding code can observe of it. */
  type HandlerId = nat

  datatype Call<T> = Call(handler: HandlerId, arg: T)

  /** The calls made to `handlers`, in registration order, each with `arg`. */
  function Calls<T>(handlers: seq<HandlerId>, arg: T): (cs: seq<Call<T>>)
    ensures |cs| == |handlers|
    ensures forall i :: 0 <= i < |handlers| ==> cs[i] == Call(handlers[i], arg)
  {
    seq(|handlers|, i requires 0 <= i < |handlers| => Call(handlers[i], arg))
  }

  lemma CallsPrefix<T>(handlers: seq<HandlerId>, i: nat, arg: T)
    requires i < |handlers|
    ensures Calls(handlers[..i + 1], arg) == Calls(handlers[..i], arg) + [Call(handlers[i], arg)]
  {
  }

  /** The ordered record of every callback invocation made by the objects sharing it. */
  class Trace<T> {
    var calls: seq<Call<T>>

    constructor ()
      ensures calls == []
    {
      calls := [];
    }
  }

  /** Concatenation is associative; stated once so that proofs about streams of events
      can regroup them without unfolding sequence equality. */
  lemma ConcatAssoc<T>(x: seq<T>, y: seq<T>, z: seq<T>)
    ensures x + (y + z) == (x + y) + z
  {
  }
}

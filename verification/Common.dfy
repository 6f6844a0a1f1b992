/** Types shared by the models of the agent and of the command-line client. */
module Common {
  datatype Option<+T> = None | Some(value: T)

  datatype Result<+T, +E> = Ok(value: T) | Err(error: E)

  type Byte = b: int | 0 <= b < 256

  /** What a read or a write on a connection reports when it does not succeed. */
  datatype Failure =
    | EndOfFile
    | UnexpectedEndOfFile
    | BufferFull
    | FrameTooLarge
    | Broken

  /** How a stream of incoming bytes ends: the peer closed it, or reading it failed. */
  type Ending = f: Failure | f == EndOfFile || f == Broken witness EndOfFile

  lemma Associative<T>(a: seq<T>, b: seq<T>, c: seq<T>)
    ensures a + (b + c) == (a + b) + c
  {
  }

  predicate NulFree(text: string) {
    '\0' !in text
  }

  function Ascii(s: string): seq<Byte>
    requires forall i :: 0 <= i < |s| ==> s[i] as int < 128
  {
    seq(|s|, i requires 0 <= i < |s| => s[i] as int)
  }
}

/** The trace file as the decoder reads it: a `BufReader<File>` consumed
    front to back by `read_exact`. */
module Stream {
  import opened Fallible
  import opened Numbers

  class Reader {
    /** The bytes not yet read. */
    var rest: seq<byte>

    constructor (contents: seq<byte>)
      ensures rest == contents
    {
      rest := contents;
    }

    /** `read_exact` into a buffer of `n` bytes: either the next `n` bytes,
        or an `UnexpectedEof` error after which the position is unspecified
        (the model drops what is left; nothing reads after an error). */
    method ReadExact(n: nat) returns (r: Result<seq<byte>>)
      modifies this
      ensures n <= |old(rest)| ==> r == Ok(old(rest)[..n]) && rest == old(rest)[n..]
      ensures n > |old(rest)| ==> r == Err(UnexpectedEof) && rest == []
    {
      if n <= |rest| {
        r := Ok(rest[..n]);
        rest := rest[n..];
      } else {
        r := Err(UnexpectedEof);
        rest := [];
      }
    }
  }
}

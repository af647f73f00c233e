/** `errno_name` (lktrace/src/errno.rs): the name of a negated Linux error
    number, after truncating the 64-bit result to 32 bits. */
module Errno {
  import opened Fallible
  import opened Numbers

  const EPERM: int := 1
  const ENOENT: int := 2
  const ECHILD: int := 10
  const ENOTDIR: int := 20
  const EISDIR: int := 21
  const EINVAL: int := 22
  const ENOTTY: int := 25

  const UNKNOWN_ERRNO: string := "Unknown errno"

  /** `errno_name(err)`: `-(err as i32)` is matched against the known codes.
      Negating `i32::MIN` overflows, which a debug build reports as a panic;
      the `println!` of the unknown branch is not modelled. */
  function ErrnoName(err: i64): (r: Result<string>)
    ensures r.Err? <==> AsI32(err) == -TWO_31
  {
    var e := AsI32(err);
    if e == -TWO_31 then Err(Panic(NEG_OVERFLOW))
    else
      var code := -e;
      if code == 0 then Ok("OK")
      else if code == EPERM then Ok("EPERM")
      else if code == ENOENT then Ok("ENOENT")
      else if code == ECHILD then Ok("ECHILD")
      else if code == ENOTDIR then Ok("ENOTDIR")
      else if code == EISDIR then Ok("EISDIR")
      else if code == EINVAL then Ok("EINVAL")
      else if code == ENOTTY then Ok("ENOTTY")
      else Ok(UNKNOWN_ERRNO)
  }

  /** The error number each known name stands for: the independent table
      the rendering is checked against. */
  function CodeOf(name: string): Option<int> {
    if name == "OK" then Some(0)
    else if name == "EPERM" then Some(EPERM)
    else if name == "ENOENT" then Some(ENOENT)
    else if name == "ECHILD" then Some(ECHILD)
    else if name == "ENOTDIR" then Some(ENOTDIR)
    else if name == "EISDIR" then Some(EISDIR)
    else if name == "EINVAL" then Some(EINVAL)
    else if name == "ENOTTY" then Some(ENOTTY)
    else None
  }

  /** A known name is given exactly when the low 32 bits of `err` are the
      negated code of that name. */
  lemma ErrnoNameMatchesCode(err: i64, name: string)
    requires CodeOf(name).Some?
    ensures ErrnoName(err) == Ok(name) <==> AsI32(err) == -CodeOf(name).value
  {
  }

  /** Every name given out is either a known name, standing for the
      negation of the value's low 32 bits, or "Unknown errno". */
  lemma ErrnoNameKnownOrUnknown(err: i64)
    requires ErrnoName(err).Ok?
    ensures var t := ErrnoName(err).value;
            t == UNKNOWN_ERRNO || (CodeOf(t).Some? && AsI32(err) == -CodeOf(t).value)
    ensures |ErrnoName(err).value| > 0 && 'A' <= ErrnoName(err).value[0] <= 'Z'
  {
    var t := ErrnoName(err).value;
    if t != UNKNOWN_ERRNO {
      assert t in {"OK", "EPERM", "ENOENT", "ECHILD", "ENOTDIR", "EISDIR", "EINVAL", "ENOTTY"};
      ErrnoNameMatchesCode(err, t);
    }
  }

  /** Every value whose low 32 bits are no known negated code (and not
      `i32::MIN`) is reported as unknown. */
  lemma ErrnoNameUnknown(err: i64)
    requires AsI32(err) != -TWO_31
    requires forall name :: CodeOf(name).Some? ==> AsI32(err) != -CodeOf(name).value
    ensures ErrnoName(err) == Ok(UNKNOWN_ERRNO)
  {
    assert CodeOf("OK").Some? && CodeOf("EPERM").Some? && CodeOf("ENOENT").Some?;
    assert CodeOf("ECHILD").Some? && CodeOf("ENOTDIR").Some? && CodeOf("EISDIR").Some?;
    assert CodeOf("EINVAL").Some? && CodeOf("ENOTTY").Some?;
  }

  lemma ErrnoNameTable()
    ensures ErrnoName(0) == Ok("OK")
    ensures ErrnoName(-1) == Ok("EPERM") && ErrnoName(-2) == Ok("ENOENT")
    ensures ErrnoName(-10) == Ok("ECHILD") && ErrnoName(-20) == Ok("ENOTDIR")
    ensures ErrnoName(-21) == Ok("EISDIR") && ErrnoName(-22) == Ok("EINVAL")
    ensures ErrnoName(-25) == Ok("ENOTTY")
  {
  }

  /** Only the low 32 bits of the input matter. */
  lemma ErrnoNameLow32(a: i64, b: i64)
    requires a % TWO_32 == b % TWO_32
    ensures ErrnoName(a) == ErrnoName(b)
  {
    AsI32Low32(a, b);
  }

  /** Positive values that fit in 31 bits are never a known name. */
  lemma ErrnoNamePositive(err: i64)
    requires 0 < err < TWO_31
    ensures ErrnoName(err) == Ok(UNKNOWN_ERRNO)
  {
  }

  /** The truncation lets a large positive value through as a known name:
      0xffff_ffff is -1 as an `i32`. */
  lemma ErrnoNameTruncates()
    ensures ErrnoName(0xFFFF_FFFF) == Ok("EPERM")
    ensures ErrnoName(-TWO_31).Err?
  {
  }
}

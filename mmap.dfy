/** `prot_name` and `map_name` (lktrace/src/mmap.rs): the symbolic names of
    the `prot` and `flags` arguments of `mmap` and `mprotect`. */
module Mmap {
  import opened Text
  import opened Flags

  const PROT_NONE: bv64 := 0x0
  const PROT_READ: bv64 := 0x1
  const PROT_WRITE: bv64 := 0x2
  const PROT_EXEC: bv64 := 0x4
  const PROT_SEM: bv64 := 0x8
  const PROT_GROWSDOWN: bv64 := 0x0100_0000
  const PROT_GROWSUP: bv64 := 0x0200_0000

  const MAP_SHARED: bv64 := 0x01
  const MAP_PRIVATE: bv64 := 0x02
  const MAP_SHARED_VALIDATE: bv64 := 0x03
  const MAP_FIXED: bv64 := 0x10
  const MAP_ANONYMOUS: bv64 := 0x20
  const MAP_GROWSDOWN: bv64 := 0x0100
  const MAP_DENYWRITE: bv64 := 0x0800
  const MAP_EXECUTABLE: bv64 := 0x1000
  const MAP_LOCKED: bv64 := 0x2000
  const MAP_NORESERVE: bv64 := 0x4000

  /** The protection bits that have a name, in the order they are listed. */
  const PROT_TABLE: Table := [
    (PROT_READ, "PROT_READ"), (PROT_WRITE, "PROT_WRITE"), (PROT_EXEC, "PROT_EXEC"),
    (PROT_SEM, "PROT_SEM"), (PROT_GROWSDOWN, "PROT_GROWSDOWN"), (PROT_GROWSUP, "PROT_GROWSUP")]

  const PROT_MASK: bv64 := PROT_READ | PROT_WRITE | PROT_EXEC | PROT_SEM | PROT_GROWSDOWN | PROT_GROWSUP

  /** The mapping flags that have a name, after the sharing type. */
  const MAP_TABLE: Table := [
    (MAP_FIXED, "MAP_FIXED"), (MAP_ANONYMOUS, "MAP_ANONYMOUS"), (MAP_GROWSDOWN, "MAP_GROWSDOWN"),
    (MAP_DENYWRITE, "MAP_DENYWRITE"), (MAP_EXECUTABLE, "MAP_EXECUTABLE"),
    (MAP_LOCKED, "MAP_LOCKED"), (MAP_NORESERVE, "MAP_NORESERVE")]

  const MAP_MASK: bv64 := MAP_FIXED | MAP_ANONYMOUS | MAP_GROWSDOWN | MAP_DENYWRITE
    | MAP_EXECUTABLE | MAP_LOCKED | MAP_NORESERVE

  /** What `prot_name` promises: "PROT_NONE" for zero, otherwise the names
      of the set protection bits joined by '|'. */
  function ProtText(prot: bv64): string {
    if prot == PROT_NONE then "PROT_NONE" else Join(Names(PROT_TABLE, prot), "|")
  }

  /** The sharing type named by the two low bits. */
  function SharingName(flags: bv64): string {
    var sharing := flags & 3;
    if sharing == MAP_SHARED_VALIDATE then "MAP_SHARED_VALIDATE"
    else if sharing == MAP_SHARED then "MAP_SHARED"
    else if sharing == MAP_PRIVATE then "MAP_PRIVATE"
    else "MAP_UNKNOWN"
  }

  /** What `map_name` promises: the sharing type, then the names of the set
      mapping flags, joined by '|'. */
  function MapText(flags: bv64): string {
    Join([SharingName(flags)] + Names(MAP_TABLE, flags), "|")
  }

  /** `prot_name`: tests each protection bit in turn, pushing its name. */
  method ProtName(prot: bv64) returns (s: string)
    ensures prot == PROT_NONE ==> s == "PROT_NONE"
    ensures prot != PROT_NONE ==> s == Join(Names(PROT_TABLE, prot), "|")
  {
    if prot == PROT_NONE {
      s := "PROT_NONE";
    } else {
      var names: seq<string> := [];
      ghost var head := names;
      NamesUpToNext(head, PROT_TABLE, prot, 0, names);
      names := PushIfSet(names, prot, PROT_READ, "PROT_READ");
      NamesUpToNext(head, PROT_TABLE, prot, 1, names);
      names := PushIfSet(names, prot, PROT_WRITE, "PROT_WRITE");
      NamesUpToNext(head, PROT_TABLE, prot, 2, names);
      names := PushIfSet(names, prot, PROT_EXEC, "PROT_EXEC");
      NamesUpToNext(head, PROT_TABLE, prot, 3, names);
      names := PushIfSet(names, prot, PROT_SEM, "PROT_SEM");
      NamesUpToNext(head, PROT_TABLE, prot, 4, names);
      names := PushIfSet(names, prot, PROT_GROWSDOWN, "PROT_GROWSDOWN");
      NamesUpToNext(head, PROT_TABLE, prot, 5, names);
      names := PushIfSet(names, prot, PROT_GROWSUP, "PROT_GROWSUP");
      s := Join(names, "|");
    }
  }

  /** `map_name`: pushes the name of the sharing type (the `match` on the
      two low bits), then tests each mapping flag in turn. */
  method MapName(flags: bv64) returns (s: string)
    ensures s == MapText(flags)
  {
    var names: seq<string> := [SharingName(flags)];
    ghost var head := names;
    NamesUpToNext(head, MAP_TABLE, flags, 0, names);
    assert MAP_TABLE[0] == (MAP_FIXED, "MAP_FIXED");
    names := PushIfSet(names, flags, MAP_FIXED, "MAP_FIXED");
    NamesUpToNext(head, MAP_TABLE, flags, 1, names);
    assert MAP_TABLE[1] == (MAP_ANONYMOUS, "MAP_ANONYMOUS");
    names := PushIfSet(names, flags, MAP_ANONYMOUS, "MAP_ANONYMOUS");
    NamesUpToNext(head, MAP_TABLE, flags, 2, names);
    assert MAP_TABLE[2] == (MAP_GROWSDOWN, "MAP_GROWSDOWN");
    names := PushIfSet(names, flags, MAP_GROWSDOWN, "MAP_GROWSDOWN");
    NamesUpToNext(head, MAP_TABLE, flags, 3, names);
    assert MAP_TABLE[3] == (MAP_DENYWRITE, "MAP_DENYWRITE");
    names := PushIfSet(names, flags, MAP_DENYWRITE, "MAP_DENYWRITE");
    NamesUpToNext(head, MAP_TABLE, flags, 4, names);
    assert MAP_TABLE[4] == (MAP_EXECUTABLE, "MAP_EXECUTABLE");
    names := PushIfSet(names, flags, MAP_EXECUTABLE, "MAP_EXECUTABLE");
    NamesUpToNext(head, MAP_TABLE, flags, 5, names);
    assert MAP_TABLE[5] == (MAP_LOCKED, "MAP_LOCKED");
    names := PushIfSet(names, flags, MAP_LOCKED, "MAP_LOCKED");
    NamesUpToNext(head, MAP_TABLE, flags, 6, names);
    assert MAP_TABLE[6] == (MAP_NORESERVE, "MAP_NORESERVE");
    names := PushIfSet(names, flags, MAP_NORESERVE, "MAP_NORESERVE");
    s := Join(names, "|");
  }

  lemma ProtTableWellFormed()
    ensures DistinctNames(PROT_TABLE)
    ensures forall i :: 0 <= i < |PROT_TABLE| ==> '|' !in PROT_TABLE[i].1
  {
  }

  lemma MapTableWellFormed()
    ensures DistinctNames(MAP_TABLE)
    ensures forall i :: 0 <= i < |MAP_TABLE| ==> '|' !in MAP_TABLE[i].1
  {
  }

  /** Splitting a nonzero protection's text at '|' gives back exactly the
      names of its set bits (a single empty name when none is set). */
  lemma ProtTextSplits(prot: bv64)
    requires prot != PROT_NONE
    ensures Split(ProtText(prot), '|') == if Names(PROT_TABLE, prot) == [] then [""] else Names(PROT_TABLE, prot)
  {
    var names := Names(PROT_TABLE, prot);
    if names != [] {
      ProtTableWellFormed();
      NamesUpToAvoid(PROT_TABLE, prot, '|', |PROT_TABLE|);
      SplitJoin(names, '|');
    }
  }

  /** For a nonzero protection the text lists a protection's name exactly
      when its bit is set. */
  lemma ProtNameListedIffSet(prot: bv64, k: nat)
    requires prot != PROT_NONE && k < |PROT_TABLE|
    ensures PROT_TABLE[k].1 in Split(ProtText(prot), '|') <==> IsSet(prot, PROT_TABLE[k].0)
  {
    ProtTextSplits(prot);
    ProtTableWellFormed();
    NamesListedIffSet(PROT_TABLE, prot, k);
  }

  /** Bits without a name change nothing for nonzero protections. */
  lemma ProtIgnoresUnnamedBits(x: bv64, y: bv64)
    requires x != PROT_NONE && y != PROT_NONE && x & PROT_MASK == y & PROT_MASK
    ensures ProtText(x) == ProtText(y)
  {
    ProtTableInMask();
    forall i | 0 <= i < |PROT_TABLE| ensures IsSet(x, PROT_TABLE[i].0) == IsSet(y, PROT_TABLE[i].0) {
      SameInMask(x, y, PROT_MASK, PROT_TABLE[i].0);
    }
    NamesUpToIgnoreOtherBits(PROT_TABLE, x, y, |PROT_TABLE|);
  }

  /** A protection with no named bit set gets no names. */
  lemma ProtNamesOutsideMask(prot: bv64)
    requires prot & PROT_MASK == 0
    ensures Names(PROT_TABLE, prot) == []
  {
    ProtTableInMask();
    forall i | 0 <= i < |PROT_TABLE| ensures !IsSet(prot, PROT_TABLE[i].0) {
      SameInMask(prot, 0, PROT_MASK, PROT_TABLE[i].0);
    }
    NamesUpToNoneSet(PROT_TABLE, prot, |PROT_TABLE|);
  }

  /** The zero test looks at the whole word, so a protection with only an
      unnamed bit set renders as the empty string, not as "PROT_NONE". */
  lemma ProtUnnamedBitIsNotNone()
    ensures ProtText(PROT_NONE) == "PROT_NONE"
    ensures ProtText(0x10) == ""
  {
    ProtNamesOutsideMask(0x10);
  }

  /** A mapping's text splits into its sharing type followed by the names of
      its set flags, so it is never empty and starts with exactly one
      sharing name. */
  lemma MapTextSplits(flags: bv64)
    ensures Split(MapText(flags), '|') == [SharingName(flags)] + Names(MAP_TABLE, flags)
    ensures SharingName(flags) in {"MAP_SHARED_VALIDATE", "MAP_SHARED", "MAP_PRIVATE", "MAP_UNKNOWN"}
  {
    var names := [SharingName(flags)] + Names(MAP_TABLE, flags);
    MapTableWellFormed();
    NamesUpToAvoid(MAP_TABLE, flags, '|', |MAP_TABLE|);
    forall i | 0 <= i < |names| ensures '|' !in names[i] {
      if i > 0 {
        assert names[i] == Names(MAP_TABLE, flags)[i - 1];
      }
    }
    SplitJoin(names, '|');
  }

  /** A mapping flag's name is listed exactly when its bit is set. */
  lemma MapFlagListedIffSet(flags: bv64, k: nat)
    requires k < |MAP_TABLE|
    ensures MAP_TABLE[k].1 in Split(MapText(flags), '|')[1..] <==> IsSet(flags, MAP_TABLE[k].0)
  {
    MapTextSplits(flags);
    MapTableWellFormed();
    NamesListedIffSet(MAP_TABLE, flags, k);
    assert Split(MapText(flags), '|')[1..] == Names(MAP_TABLE, flags);
  }

  /** The sharing type depends on the two low bits only, and the flag names
      on the named bits only. */
  lemma MapIgnoresUnnamedBits(x: bv64, y: bv64)
    requires x & 3 == y & 3 && x & MAP_MASK == y & MAP_MASK
    ensures MapText(x) == MapText(y)
  {
    assert SharingName(x) == SharingName(y);
    MapNamesIgnoreUnnamedBits(x, y);
  }

  lemma MapNamesIgnoreUnnamedBits(x: bv64, y: bv64)
    requires x & MAP_MASK == y & MAP_MASK
    ensures Names(MAP_TABLE, x) == Names(MAP_TABLE, y)
  {
    MapTableInMask();
    forall i | 0 <= i < |MAP_TABLE| ensures IsSet(x, MAP_TABLE[i].0) == IsSet(y, MAP_TABLE[i].0) {
      SameInMask(x, y, MAP_MASK, MAP_TABLE[i].0);
    }
    NamesUpToIgnoreOtherBits(MAP_TABLE, x, y, |MAP_TABLE|);
  }

  lemma ProtTableInMask()
    ensures forall i :: 0 <= i < |PROT_TABLE| ==> PROT_TABLE[i].0 & PROT_MASK == PROT_TABLE[i].0
  {
  }

  lemma MapTableInMask()
    ensures forall i :: 0 <= i < |MAP_TABLE| ==> MAP_TABLE[i].0 & MAP_MASK == MAP_TABLE[i].0
  {
  }
}

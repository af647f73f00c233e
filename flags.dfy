/** Naming the set bits of a flag word from a table of (bit, name) pairs,
    in table order: the shape shared by `prot_name`, `map_name` and
    `sa_flag_name`. */
module Flags {
  type Table = seq<(bv64, string)>

  predicate IsSet(x: bv64, bit: bv64) {
    x & bit != 0
  }

  /** The entry's name when its bit is set in `x`, else nothing. */
  function NameIfSet(entry: (bv64, string), x: bv64): seq<string> {
    if IsSet(x, entry.0) then [entry.1] else []
  }

  /** The names of the set entries among the first `k` of the table, in
      table order: the list built by testing the entries one after the other. */
  function NamesUpTo(table: Table, x: bv64, k: nat): (names: seq<string>)
    requires k <= |table|
    ensures |names| <= k
  {
    if k == 0 then [] else NamesUpTo(table, x, k - 1) + NameIfSet(table[k - 1], x)
  }

  /** The names of all set entries of the table, in table order. */
  function Names(table: Table, x: bv64): seq<string> {
    NamesUpTo(table, x, |table|)
  }

  predicate DistinctNames(table: Table) {
    forall i, j :: 0 <= i < j < |table| ==> table[i].1 != table[j].1
  }

  /** `if x & bit != 0 { names.push(name) }` */
  method PushIfSet(names: seq<string>, x: bv64, bit: bv64, name: string) returns (r: seq<string>)
    ensures r == names + NameIfSet((bit, name), x)
  {
    r := names;
    if x & bit != 0 {
      r := r + [name];
    }
  }

  /** When `names` is `head` followed by the names of the first `k` entries,
      testing entry `k` gives `head` followed by those of the first `k + 1`. */
  lemma NamesUpToNext(head: seq<string>, table: Table, x: bv64, k: nat, names: seq<string>)
    requires k < |table| && names == head + NamesUpTo(table, x, k)
    ensures names + NameIfSet(table[k], x) == head + NamesUpTo(table, x, k + 1)
  {
    ConcatAssoc(head, NamesUpTo(table, x, k), NameIfSet(table[k], x));
  }

  lemma ConcatAssoc(a: seq<string>, b: seq<string>, c: seq<string>)
    ensures (a + b) + c == a + (b + c)
  {
  }

  /** Among the first `k` entries, a name is listed exactly when its entry
      comes before `k` and its bit is set. */
  lemma {:induction false} NamesUpToListed(table: Table, x: bv64, k: nat, i: nat)
    requires DistinctNames(table) && k <= |table| && i < |table|
    ensures table[i].1 in NamesUpTo(table, x, k) <==> i < k && IsSet(x, table[i].0)
  {
    if k > 0 {
      NamesUpToListed(table, x, k - 1, i);
      assert i != k - 1 ==> table[k - 1].1 != table[i].1;
    }
  }

  /** A table's name is listed exactly when its bit is set. */
  lemma NamesListedIffSet(table: Table, x: bv64, i: nat)
    requires DistinctNames(table) && i < |table|
    ensures table[i].1 in Names(table, x) <==> IsSet(x, table[i].0)
  {
    NamesUpToListed(table, x, |table|, i);
  }

  /** Order: the names of the first `k` entries form a prefix of the list;
      with `NamesUpToListed`, each set entry's name comes before those of
      the set entries after it. */
  lemma {:induction false} NamesUpToPrefix(table: Table, x: bv64, k: nat, n: nat)
    requires k <= n <= |table|
    ensures NamesUpTo(table, x, k) <= NamesUpTo(table, x, n)
  {
    if k < n {
      NamesUpToPrefix(table, x, k, n - 1);
    }
  }

  /** Bits the table does not name do not change the list. */
  lemma {:induction false} NamesUpToIgnoreOtherBits(table: Table, x: bv64, y: bv64, k: nat)
    requires k <= |table|
    requires forall i :: 0 <= i < |table| ==> IsSet(x, table[i].0) == IsSet(y, table[i].0)
    ensures NamesUpTo(table, x, k) == NamesUpTo(table, y, k)
  {
    if k > 0 {
      assert IsSet(x, table[k - 1].0) == IsSet(y, table[k - 1].0);
      NamesUpToIgnoreOtherBits(table, x, y, k - 1);
    }
  }

  /** Two words that agree on a mask agree on every bit inside it. */
  lemma SameInMask(x: bv64, y: bv64, mask: bv64, bit: bv64)
    requires x & mask == y & mask && bit & mask == bit
    ensures IsSet(x, bit) == IsSet(y, bit)
  {
    calc {
      x & bit;
      x & (bit & mask);
      (x & mask) & bit;
      (y & mask) & bit;
      y & (bit & mask);
      y & bit;
    }
  }

  /** Nothing is listed when no entry's bit is set. */
  lemma {:induction false} NamesUpToNoneSet(table: Table, x: bv64, k: nat)
    requires k <= |table|
    requires forall i :: 0 <= i < |table| ==> !IsSet(x, table[i].0)
    ensures NamesUpTo(table, x, k) == []
  {
    if k > 0 {
      assert !IsSet(x, table[k - 1].0);
      NamesUpToNoneSet(table, x, k - 1);
    }
  }

  /** No separator occurs in any listed name when none occurs in the table. */
  lemma {:induction false} NamesUpToAvoid(table: Table, x: bv64, c: char, k: nat)
    requires k <= |table|
    requires forall i :: 0 <= i < |table| ==> c !in table[i].1
    ensures forall i :: 0 <= i < |NamesUpTo(table, x, k)| ==> c !in NamesUpTo(table, x, k)[i]
  {
    if k > 0 {
      NamesUpToAvoid(table, x, c, k - 1);
    }
  }
}

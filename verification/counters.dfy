/** The `Counter` collection of db/models/Deal.js: named integer sequences
    advanced by an upserting `$inc` of one. */
module Counters {

  /** Counter documents keyed by their `_id` (the counter name). */
  type Counters = map<string, int>

  /** The `seq` a counter holds; a counter that does not exist yet reads as the
      schema default 0. */
  function Seq(c: Counters, name: string): int {
    if name in c then c[name] else 0
  }

  /** The counters after one allocation and the value it handed back. */
  datatype Allocation = Allocation(counters: Counters, value: int)

  /** The counters after a run of allocations and the value each handed back. */
  datatype Allocations = Allocations(counters: Counters, values: seq<int>)

  /** `findByIdAndUpdate({_id: name}, {$inc: {seq: 1}}, {new: true, upsert: true})`:
      the counter after the update and the value handed back (the updated one). */
  function Allocate(c: Counters, name: string): (r: Allocation)
    ensures r.value == Seq(c, name) + 1
    ensures Seq(r.counters, name) == r.value
    ensures forall other :: other != name ==> Seq(r.counters, other) == Seq(c, other)
    ensures r.counters.Keys == c.Keys + {name}
  {
    var v := Seq(c, name) + 1;
    Allocation(c[name := v], v)
  }

  /** How many times `x` occurs in `s`. */
  function Occurrences(s: seq<string>, x: string): nat {
    if |s| == 0 then 0 else (if s[0] == x then 1 else 0) + Occurrences(s[1..], x)
  }

  /** `Occurrences` is the multiplicity of `x` in `s`. */
  lemma {:induction false} OccurrencesIsMultiplicity(s: seq<string>, x: string)
    ensures Occurrences(s, x) == multiset(s)[x]
  {
    if |s| > 0 {
      assert s == [s[0]] + s[1..];
      OccurrencesIsMultiplicity(s[1..], x);
    }
  }

  /** Allocations served one after another, in the order the store applied
      them, for the counter names in `names`; returns the final counters and
      the value each allocation handed back. */
  function AllocateAll(c: Counters, names: seq<string>): (r: Allocations)
    ensures |r.values| == |names|
    ensures forall i :: 0 <= i < |names| ==>
      r.values[i] == Seq(c, names[i]) + Occurrences(names[..i + 1], names[i])
    ensures forall x :: Seq(r.counters, x) == Seq(c, x) + Occurrences(names, x)
    decreases |names|
  {
    if |names| == 0 then Allocations(c, [])
    else
      var first := Allocate(c, names[0]);
      var rest := AllocateAll(first.counters, names[1..]);
      assert forall i :: 0 < i < |names| ==> names[..i + 1] == [names[0]] + names[1..][..i];
      Allocations(rest.counters, [first.value] + rest.values)
  }

  lemma {:induction false} OccurrencesAppend(s: seq<string>, y: string, x: string)
    ensures Occurrences(s + [y], x) == Occurrences(s, x) + (if y == x then 1 else 0)
  {
    if |s| > 0 {
      assert (s + [y])[1..] == s[1..] + [y];
      OccurrencesAppend(s[1..], y, x);
    }
  }

  /** A longer prefix that ends in another `x` holds strictly more `x`s. */
  lemma {:induction false} OccurrencesGrow(s: seq<string>, i: nat, j: nat)
    requires i < j < |s|
    ensures Occurrences(s[..j + 1], s[j]) > Occurrences(s[..i + 1], s[j])
  {
    if j == i + 1 {
      assert s[..j + 1] == s[..i + 1] + [s[j]];
      OccurrencesAppend(s[..i + 1], s[j], s[j]);
    } else {
      OccurrencesGrow(s, i, j - 1);
      assert s[..j] == s[..j - 1 + 1];
      assert s[..j + 1] == s[..j] + [s[j]];
      OccurrencesAppend(s[..j], s[j], s[j]);
      OccurrencesAppendMonotone(s[..j - 1], s[j - 1], s[j]);
      assert s[..j] == s[..j - 1] + [s[j - 1]];
      OccurrencesPrefixMonotone(s, i + 1, j - 1);
    }
  }

  lemma {:induction false} OccurrencesAppendMonotone(s: seq<string>, y: string, x: string)
    ensures Occurrences(s + [y], x) >= Occurrences(s, x)
  {
    OccurrencesAppend(s, y, x);
  }

  lemma {:induction false} OccurrencesPrefixMonotone(s: seq<string>, a: nat, b: nat)
    requires a <= b <= |s|
    ensures forall x :: Occurrences(s[..a], x) <= Occurrences(s[..b], x)
  {
    if a < b {
      OccurrencesPrefixMonotone(s, a, b - 1);
      assert s[..b] == s[..b - 1] + [s[b - 1]];
      forall x ensures Occurrences(s[..b - 1], x) <= Occurrences(s[..b], x) {
        OccurrencesAppend(s[..b - 1], s[b - 1], x);
      }
    }
  }

  /** Two allocations on the same counter never hand back the same value, and
      the later one hands back the larger value. */
  lemma AllocationsIncrease(c: Counters, names: seq<string>, i: nat, j: nat)
    requires i < j < |names| && names[i] == names[j]
    ensures AllocateAll(c, names).values[i] < AllocateAll(c, names).values[j]
  {
    OccurrencesGrow(names, i, j);
  }

  /** Every value from `Seq(c, x) + 1` up to the final counter value of `x` is
      handed back to some allocation on `x`: the values have no gaps. */
  lemma AllocationsHaveNoGaps(c: Counters, names: seq<string>, x: string, k: int)
    requires Seq(c, x) < k <= Seq(AllocateAll(c, names).counters, x)
    ensures exists i :: 0 <= i < |names| && names[i] == x && AllocateAll(c, names).values[i] == k
  {
    var i := OccurrenceWitness(names, x, k - Seq(c, x));
    assert AllocateAll(c, names).values[i] == k;
  }

  /** The position at which the `n`-th occurrence of `x` in `s` sits. */
  lemma {:induction false} OccurrenceWitness(s: seq<string>, x: string, n: int) returns (i: nat)
    requires 1 <= n <= Occurrences(s, x)
    ensures i < |s| && s[i] == x && Occurrences(s[..i + 1], x) == n
  {
    var m := |s| - 1;
    var init := s[..m];
    assert s == init + [s[m]];
    OccurrencesAppend(init, s[m], x);
    if n <= Occurrences(init, x) {
      i := OccurrenceWitness(init, x, n);
      assert init[..i + 1] == s[..i + 1];
    } else {
      i := m;
      assert s[..m + 1] == s;
    }
  }

  /** On a counter nobody has touched, `n` allocations hand back exactly
      1, 2, ..., n in order. */
  lemma {:induction false} FreshCounterCountsFromOne(c: Counters, name: string, names: seq<string>)
    requires name !in c
    requires forall k :: 0 <= k < |names| ==> names[k] == name
    ensures forall i :: 0 <= i < |names| ==> AllocateAll(c, names).values[i] == i + 1
  {
    forall i | 0 <= i < |names|
      ensures AllocateAll(c, names).values[i] == i + 1
    {
      OccurrencesAllSame(names[..i + 1], name);
    }
  }

  lemma {:induction false} OccurrencesAllSame(s: seq<string>, x: string)
    requires forall k :: 0 <= k < |s| ==> s[k] == x
    ensures Occurrences(s, x) == |s|
  {
    if |s| > 0 {
      OccurrencesAllSame(s[1..], x);
    }
  }
}

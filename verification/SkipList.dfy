// The ordered index behind every cache of the transport (ReCapABR/common/cf_skiplist.c).
//
// A slot pointer of the original, the address of some next[i], is modelled as the pair of the array
// that holds the slot and the level i; lowering the pointer by one keeps the array and lowers i.

/** What the index means: a strictly sorted sequence of entries, read as a finite map. */
module SortedEntries {
  import opened Wrappers

  datatype Entry<K, V> = Entry(key: K, val: V)

  ghost predicate Mirrored<K>(cmp: (K, K) -> int, a: K, b: K) {
    cmp(a, b) < 0 <==> cmp(b, a) > 0
  }

  ghost predicate Chained<K>(cmp: (K, K) -> int, a: K, b: K, c: K) {
    cmp(a, b) <= 0 && cmp(b, c) <= 0 ==> cmp(a, c) <= 0
  }

  /** A comparator that orders all keys; keys that compare as equal need not be identical. */
  ghost predicate TotalOrder<K(!new)>(cmp: (K, K) -> int) {
    && (forall a, b :: Mirrored(cmp, a, b))
    && (forall a, b, c :: Chained(cmp, a, b, c))
  }

  /** How a third key compares to two keys already compared with each other. */
  lemma Compare<K(!new)>(cmp: (K, K) -> int, a: K, b: K, c: K)
    requires TotalOrder(cmp)
    ensures cmp(a, b) < 0 && cmp(b, c) <= 0 ==> cmp(a, c) < 0
    ensures cmp(a, b) <= 0 && cmp(b, c) < 0 ==> cmp(a, c) < 0
    ensures cmp(a, b) == 0 && cmp(b, c) == 0 ==> cmp(a, c) == 0
    ensures cmp(a, b) > 0 && cmp(b, c) >= 0 ==> cmp(a, c) > 0
    ensures cmp(a, b) >= 0 && cmp(b, c) > 0 ==> cmp(a, c) > 0
    ensures cmp(a, b) < 0 <==> cmp(b, a) > 0
    ensures cmp(a, b) > 0 <==> cmp(b, a) < 0
  {
    assert Mirrored(cmp, a, b) && Mirrored(cmp, b, a) && Mirrored(cmp, b, c) && Mirrored(cmp, c, b);
    assert Mirrored(cmp, a, c) && Mirrored(cmp, c, a);
    assert Chained(cmp, a, b, c) && Chained(cmp, c, b, a);
    assert Chained(cmp, b, c, a) && Chained(cmp, c, a, b) && Chained(cmp, b, a, c) && Chained(cmp, a, c, b);
  }

  ghost predicate Below<K, V>(cmp: (K, K) -> int, s: seq<Entry<K, V>>, i: int, j: int) {
    0 <= i < j < |s| ==> cmp(s[i].key, s[j].key) < 0
  }

  ghost predicate Sorted<K, V>(cmp: (K, K) -> int, s: seq<Entry<K, V>>) {
    forall i, j :: Below(cmp, s, i, j)
  }

  /** The number of leading entries whose keys are below k. */
  function LowerBound<K, V>(cmp: (K, K) -> int, s: seq<Entry<K, V>>, k: K): (m: nat)
    ensures m <= |s|
    ensures forall i :: 0 <= i < m ==> cmp(s[i].key, k) < 0
    ensures m < |s| ==> cmp(s[m].key, k) >= 0
  {
    if s == [] || cmp(s[0].key, k) >= 0 then 0 else 1 + LowerBound(cmp, s[1..], k)
  }

  predicate Has<K, V>(cmp: (K, K) -> int, s: seq<Entry<K, V>>, k: K) {
    var m := LowerBound(cmp, s, k);
    m < |s| && cmp(s[m].key, k) == 0
  }

  /** The value found by a linear scan that knows nothing of the order. */
  function Lookup<K, V>(cmp: (K, K) -> int, s: seq<Entry<K, V>>, k: K): Option<V> {
    if s == [] then None
    else if cmp(s[0].key, k) == 0 then Some(s[0].val)
    else Lookup(cmp, s[1..], k)
  }

  function Inserted<K, V>(cmp: (K, K) -> int, s: seq<Entry<K, V>>, k: K, v: V): seq<Entry<K, V>> {
    var m := LowerBound(cmp, s, k);
    if Has(cmp, s, k) then s else s[..m] + [Entry(k, v)] + s[m..]
  }

  function Removed<K, V>(cmp: (K, K) -> int, s: seq<Entry<K, V>>, k: K): seq<Entry<K, V>> {
    var m := LowerBound(cmp, s, k);
    if Has(cmp, s, k) then s[..m] + s[m + 1..] else s
  }

  lemma Split<K(!new), V>(cmp: (K, K) -> int, s: seq<Entry<K, V>>, k: K)
    requires TotalOrder(cmp) && Sorted(cmp, s)
    ensures var m := LowerBound(cmp, s, k);
      && (forall i :: 0 <= i < m ==> cmp(s[i].key, k) < 0)
      && (forall i :: m < i < |s| ==> cmp(s[i].key, k) > 0)
      && (m < |s| && !Has(cmp, s, k) ==> cmp(s[m].key, k) > 0)
  {
    var m := LowerBound(cmp, s, k);
    forall i | m < i < |s| ensures cmp(s[i].key, k) > 0 {
      assert Below(cmp, s, m, i);
      Compare(cmp, s[m].key, s[i].key, k);
      Compare(cmp, k, s[m].key, s[i].key);
      Compare(cmp, s[m].key, k, s[i].key);
      Compare(cmp, s[i].key, k, k);
    }
  }

  /** A scan of a sorted sequence finds exactly the entry at the lower bound. */
  lemma {:induction false} LookupAt<K(!new), V>(cmp: (K, K) -> int, s: seq<Entry<K, V>>, k: K)
    requires TotalOrder(cmp) && Sorted(cmp, s)
    ensures Lookup(cmp, s, k) ==
            if Has(cmp, s, k) then Some(s[LowerBound(cmp, s, k)].val) else None
    decreases |s|
  {
    if s != [] {
      if cmp(s[0].key, k) < 0 {
        forall i, j ensures Below(cmp, s[1..], i, j) { assert Below(cmp, s, i + 1, j + 1); }
        LookupAt(cmp, s[1..], k);
      } else if cmp(s[0].key, k) > 0 {
        Split(cmp, s, k);
        ScanMisses(cmp, s, k);
      }
    }
  }

  lemma {:induction false} ScanMisses<K, V>(cmp: (K, K) -> int, s: seq<Entry<K, V>>, k: K)
    requires forall i :: 0 <= i < |s| ==> cmp(s[i].key, k) != 0
    ensures Lookup(cmp, s, k) == None
  {
    if s != [] { ScanMisses(cmp, s[1..], k); }
  }

  lemma {:induction false} ScanConcat<K, V>(cmp: (K, K) -> int, s: seq<Entry<K, V>>, t: seq<Entry<K, V>>, k: K)
    ensures Lookup(cmp, s + t, k) ==
            if Lookup(cmp, s, k).Some? then Lookup(cmp, s, k) else Lookup(cmp, t, k)
  {
    if s == [] {
      assert s + t == t;
    } else {
      assert (s + t)[1..] == s[1..] + t;
      ScanConcat(cmp, s[1..], t, k);
    }
  }

  lemma InsertedSorted<K(!new), V>(cmp: (K, K) -> int, s: seq<Entry<K, V>>, k: K, v: V)
    requires TotalOrder(cmp) && Sorted(cmp, s)
    ensures Sorted(cmp, Inserted(cmp, s, k, v))
  {
    var m := LowerBound(cmp, s, k);
    var t := Inserted(cmp, s, k, v);
    Split(cmp, s, k);
    if !Has(cmp, s, k) {
      forall i, j ensures Below(cmp, t, i, j) {
        assert Below(cmp, s, if i < m then i else i - 1, if j < m then j else j - 1);
        if i == m < j < |t| { Compare(cmp, s[j - 1].key, k, k); }
      }
    }
  }

  lemma RemovedSorted<K(!new), V>(cmp: (K, K) -> int, s: seq<Entry<K, V>>, k: K)
    requires Sorted(cmp, s)
    ensures Sorted(cmp, Removed(cmp, s, k))
  {
    var m := LowerBound(cmp, s, k);
    var t := Removed(cmp, s, k);
    if Has(cmp, s, k) {
      forall i, j ensures Below(cmp, t, i, j) {
        assert Below(cmp, s, if i < m then i else i + 1, if j < m then j else j + 1);
      }
    }
  }

  /** Insertion writes an absent key and leaves every other lookup, and a present key, alone. */
  lemma InsertedLookup<K(!new), V>(cmp: (K, K) -> int, s: seq<Entry<K, V>>, k: K, v: V, q: K)
    requires TotalOrder(cmp) && Sorted(cmp, s)
    ensures Lookup(cmp, Inserted(cmp, s, k, v), q) ==
            if cmp(k, q) == 0 && Lookup(cmp, s, q) == None then Some(v) else Lookup(cmp, s, q)
  {
    LookupAt(cmp, s, k);
    if cmp(k, q) == 0 { SameKey(cmp, s, k, q); }
    if !Has(cmp, s, k) { PlacedLookup(cmp, s, LowerBound(cmp, s, k), k, v, q); }
  }

  lemma PlacedLookup<K(!new), V>(cmp: (K, K) -> int, s: seq<Entry<K, V>>, m: nat, k: K, v: V, q: K)
    requires m <= |s| && (cmp(k, q) == 0 ==> Lookup(cmp, s, q) == None)
    ensures Lookup(cmp, s[..m] + [Entry(k, v)] + s[m..], q) ==
            if cmp(k, q) == 0 then Some(v) else Lookup(cmp, s, q)
  {
    var e := [Entry(k, v)];
    assert s == s[..m] + s[m..];
    ScanConcat(cmp, s[..m], s[m..], q);
    ScanConcat(cmp, s[..m], e + s[m..], q);
    ScanConcat(cmp, e, s[m..], q);
    assert s[..m] + e + s[m..] == s[..m] + (e + s[m..]);
    assert Lookup(cmp, e, q) == if cmp(k, q) == 0 then Some(v) else Lookup(cmp, e[1..], q);
  }

  lemma SameKey<K(!new), V>(cmp: (K, K) -> int, s: seq<Entry<K, V>>, k: K, q: K)
    requires TotalOrder(cmp) && cmp(k, q) == 0
    ensures Lookup(cmp, s, k) == Lookup(cmp, s, q)
  {
    if s != [] {
      Compare(cmp, s[0].key, k, q);
      Compare(cmp, s[0].key, q, k);
      Compare(cmp, k, q, k);
      SameKey(cmp, s[1..], k, q);
    }
  }

  /** Removal forgets the key and leaves every other lookup alone. */
  lemma RemovedLookup<K(!new), V>(cmp: (K, K) -> int, s: seq<Entry<K, V>>, k: K, q: K)
    requires TotalOrder(cmp) && Sorted(cmp, s)
    ensures Lookup(cmp, Removed(cmp, s, k), q) == if cmp(k, q) == 0 then None else Lookup(cmp, s, q)
  {
    var m := LowerBound(cmp, s, k);
    LookupAt(cmp, s, k);
    if Has(cmp, s, k) {
      var e := s[m..m + 1];
      Split(cmp, s, k);
      assert s == s[..m] + (e + s[m + 1..]);
      ScanConcat(cmp, s[..m], e + s[m + 1..], q);
      ScanConcat(cmp, e, s[m + 1..], q);
      ScanConcat(cmp, s[..m], s[m + 1..], q);
      assert Lookup(cmp, e, q) == if cmp(e[0].key, q) == 0 then Some(e[0].val) else Lookup(cmp, e[1..], q);
      if cmp(k, q) == 0 {
        ScanMisses(cmp, s[..m] + s[m + 1..], k);
        SameKey(cmp, s[..m] + s[m + 1..], k, q);
      } else {
        Compare(cmp, k, e[0].key, q);
        Compare(cmp, e[0].key, k, q);
      }
    } else if cmp(k, q) == 0 {
      SameKey(cmp, s, k, q);
    }
  }

  /** A use of the index: what is stored, and what was handed to the callback that frees items. */
  datatype State<K, V> = State(items: seq<Entry<K, V>>, freed: seq<Entry<K, V>>)

  datatype Op<K, V> = Insert(key: K, val: V) | Remove(key: K) | Clear

  function Step<K, V>(cmp: (K, K) -> int, frees: bool, st: State<K, V>, op: Op<K, V>): State<K, V> {
    match op
    case Insert(k, v) =>
      var dropped := if frees && Has(cmp, st.items, k) then [Entry(k, v)] else [];
      State(Inserted(cmp, st.items, k, v), st.freed + dropped)
    case Remove(k) =>
      var dropped := if frees && Has(cmp, st.items, k) then [st.items[LowerBound(cmp, st.items, k)]] else [];
      State(Removed(cmp, st.items, k), st.freed + dropped)
    case Clear =>
      State([], st.freed + if frees then st.items else [])
  }

  function Run<K, V>(cmp: (K, K) -> int, frees: bool, ops: seq<Op<K, V>>): State<K, V> {
    if ops == [] then State([], [])
    else Step(cmp, frees, Run(cmp, frees, ops[..|ops| - 1]), ops[|ops| - 1])
  }

  /** What a plain dictionary that keeps the first value written would answer for q after the operations. */
  function Expected<K, V>(cmp: (K, K) -> int, ops: seq<Op<K, V>>, q: K): Option<V> {
    if ops == [] then None else
    var before := Expected(cmp, ops[..|ops| - 1], q);
    match ops[|ops| - 1]
    case Insert(k, v) => if cmp(k, q) == 0 && before == None then Some(v) else before
    case Remove(k) => if cmp(k, q) == 0 then None else before
    case Clear => None
  }

  function GivenBy<K, V>(op: Op<K, V>): seq<Entry<K, V>> {
    if op.Insert? then [Entry(op.key, op.val)] else []
  }

  function Given<K, V>(ops: seq<Op<K, V>>): seq<Entry<K, V>> {
    if ops == [] then [] else Given(ops[..|ops| - 1]) + GivenBy(ops[|ops| - 1])
  }

  /** After any run the index answers every lookup as the dictionary does, in strict key order. */
  lemma {:induction false} RunIsDictionary<K(!new), V>(cmp: (K, K) -> int, frees: bool, ops: seq<Op<K, V>>, q: K)
    requires TotalOrder(cmp)
    ensures Sorted(cmp, Run(cmp, frees, ops).items)
    ensures Lookup(cmp, Run(cmp, frees, ops).items, q) == Expected(cmp, ops, q)
    decreases |ops|
  {
    if ops != [] {
      var before := Run(cmp, frees, ops[..|ops| - 1]).items;
      RunIsDictionary(cmp, frees, ops[..|ops| - 1], q);
      match ops[|ops| - 1]
      case Insert(k, v) =>
        InsertedSorted(cmp, before, k, v);
        InsertedLookup(cmp, before, k, v, q);
      case Remove(k) =>
        RemovedSorted(cmp, before, k);
        RemovedLookup(cmp, before, k, q);
      case Clear =>
    }
  }

  /** Every item ever given is either stored or was handed to the callback, and never both. */
  lemma {:induction false} RunConserves<K, V>(cmp: (K, K) -> int, ops: seq<Op<K, V>>)
    ensures var st := Run(cmp, true, ops); multiset(Given(ops)) == multiset(st.items) + multiset(st.freed)
    decreases |ops|
  {
    if ops != [] {
      RunConserves(cmp, ops[..|ops| - 1]);
      StepConserves(cmp, Run(cmp, true, ops[..|ops| - 1]), ops[|ops| - 1]);
    }
  }

  lemma StepConserves<K, V>(cmp: (K, K) -> int, st: State<K, V>, op: Op<K, V>)
    ensures var after := Step(cmp, true, st, op);
      multiset(after.items) + multiset(after.freed) ==
      multiset(st.items) + multiset(st.freed) + multiset(GivenBy(op))
  {
    match op
    case Insert(k, v) => InsertConserves(cmp, st.items, k, v);
    case Remove(k) => RemoveConserves(cmp, st.items, k);
    case Clear =>
  }

  lemma InsertConserves<K, V>(cmp: (K, K) -> int, items: seq<Entry<K, V>>, k: K, v: V)
    ensures multiset(Inserted(cmp, items, k, v)) ==
            multiset(items) + if Has(cmp, items, k) then multiset{} else multiset{Entry(k, v)}
  {
    Placed(items, LowerBound(cmp, items, k), Entry(k, v));
  }

  lemma RemoveConserves<K, V>(cmp: (K, K) -> int, items: seq<Entry<K, V>>, k: K)
    ensures multiset(items) == multiset(Removed(cmp, items, k)) +
            if Has(cmp, items, k) then multiset{items[LowerBound(cmp, items, k)]} else multiset{}
  {
    if Has(cmp, items, k) {
      Taken(items, LowerBound(cmp, items, k));
    }
  }

  lemma Placed<T>(s: seq<T>, m: nat, x: T)
    requires m <= |s|
    ensures multiset(s[..m] + [x] + s[m..]) == multiset(s) + multiset{x}
  {
    assert s == s[..m] + s[m..];
  }

  lemma Taken<T>(s: seq<T>, m: nat)
    requires m < |s|
    ensures multiset(s) == multiset(s[..m] + s[m + 1..]) + multiset{s[m]}
  {
    assert s == s[..m] + [s[m]] + s[m + 1..];
  }
}

/** The linked structure itself: nodes with towers of next pointers, updated in place. */
module SkipLists {
  import opened Wrappers
  import opened SortedEntries

  const MAX_DEPTH: nat := 8

  class Node<K, V> {
    const key: K
    const val: V
    const depth: nat
    const next: array<Node?<K, V>>

    constructor (key: K, val: V, depth: nat)
      ensures this.key == key && this.val == val && this.depth == depth
      ensures fresh(next) && next.Length == depth
    {
      this.key, this.val, this.depth := key, val, depth;
      this.next := new Node?<K, V>[depth](_ => null);
    }
  }

  /** The first position at or after q of a node that reaches above level i. */
  function NextAt<K, V>(nodes: seq<Node<K, V>>, q: nat, i: nat): (r: nat)
    requires q <= |nodes|
    ensures q <= r <= |nodes|
    ensures r < |nodes| ==> nodes[r].depth > i
    decreases |nodes| - q
  {
    if q == |nodes| || nodes[q].depth > i then q else NextAt(nodes, q + 1, i)
  }

  function NodeAt<K, V>(nodes: seq<Node<K, V>>, r: nat): Node?<K, V> {
    if r < |nodes| then nodes[r] else null
  }

  /** Nothing before the next position reaches above the level. */
  lemma {:induction false} NextAtSkip<K, V>(nodes: seq<Node<K, V>>, q: nat, m: nat, i: nat)
    requires q <= |nodes| && q <= m <= NextAt(nodes, q, i)
    ensures NextAt(nodes, m, i) == NextAt(nodes, q, i)
    decreases m - q
  {
    if q < m { NextAtSkip(nodes, q + 1, m, i); }
  }

  lemma {:induction false} NextAtMost<K, V>(nodes: seq<Node<K, V>>, q: nat, p: nat, i: nat)
    requires q <= p < |nodes| && nodes[p].depth > i
    ensures NextAt(nodes, q, i) <= p
    decreases p - q
  {
    if q < p { NextAtMost(nodes, q + 1, p, i); }
  }

  lemma {:induction false} NextAtPrefix<K, V>(a: seq<Node<K, V>>, b: seq<Node<K, V>>, q: nat, m: nat, i: nat)
    requires q <= m <= |a| && m <= |b| && a[..m] == b[..m]
    ensures NextAt(a, q, i) < m ==> NextAt(b, q, i) == NextAt(a, q, i)
    ensures NextAt(a, q, i) >= m ==> NextAt(b, q, i) == NextAt(b, m, i)
    decreases m - q
  {
    if q < m {
      assert a[..m][q] == b[..m][q];
      NextAtPrefix(a, b, q + 1, m, i);
    }
  }

  lemma {:induction false} NextAtShift<K, V>(a: seq<Node<K, V>>, b: seq<Node<K, V>>, qa: nat, qb: nat, i: nat)
    requires qa <= |a| && qb <= |b| && a[qa..] == b[qb..]
    ensures NodeAt(a, NextAt(a, qa, i)) == NodeAt(b, NextAt(b, qb, i))
    decreases |a| - qa
  {
    assert |a[qa..]| == |b[qb..]|;
    if qa < |a| {
      assert a[qa..][0] == b[qb..][0];
      assert a[qa + 1..] == a[qa..][1..] && b[qb + 1..] == b[qb..][1..];
      NextAtShift(a, b, qa + 1, qb + 1, i);
    }
  }

  /** p is the last position before m whose node reaches above level i, or -1 for the list head. */
  ghost predicate PredOf<K, V>(nodes: seq<Node<K, V>>, i: nat, m: nat, p: int) {
    -1 <= p < m <= |nodes| && (p >= 0 ==> nodes[p].depth > i) && NextAt(nodes, p + 1, i) >= m
  }

  lemma LastBefore<K, V>(nodes: seq<Node<K, V>>, i: nat, m: nat, pred: int, p: int)
    requires PredOf(nodes, i, m, pred) && -1 <= p < m && (p >= 0 ==> nodes[p].depth > i)
    ensures p <= pred
  {
    if pred < p { NextAtMost(nodes, pred + 1, p, i); }
  }

  /** The nodes from position q on that reach above level i: what level i should link. */
  ghost function Tower<K, V>(nodes: seq<Node<K, V>>, q: nat, i: nat): seq<Node<K, V>>
    requires q <= |nodes|
    decreases |nodes| - q
  {
    if q == |nodes| then []
    else if nodes[q].depth > i then [nodes[q]] + Tower(nodes, q + 1, i)
    else Tower(nodes, q + 1, i)
  }

  function Items<K, V>(nodes: seq<Node<K, V>>): (s: seq<Entry<K, V>>)
    ensures |s| == |nodes|
    ensures forall i :: 0 <= i < |s| ==> s[i].key == nodes[i].key && s[i].val == nodes[i].val
  {
    seq(|nodes|, i requires 0 <= i < |nodes| => Entry(nodes[i].key, nodes[i].val))
  }

  lemma ItemsWith<K, V>(nodes: seq<Node<K, V>>, m: nat, n: Node<K, V>)
    requires m <= |nodes|
    ensures Items(nodes[..m] + [n] + nodes[m..]) == Items(nodes)[..m] + [Entry(n.key, n.val)] + Items(nodes)[m..]
  {
  }

  lemma ItemsWithout<K, V>(nodes: seq<Node<K, V>>, m: nat)
    requires m < |nodes|
    ensures Items(nodes[..m] + nodes[m + 1..]) == Items(nodes)[..m] + Items(nodes)[m + 1..]
  {
  }

  /** The slots of the node at position p; the list head stands at position -1. */
  ghost function SlotsOf<K, V>(head: array<Node?<K, V>>, nodes: seq<Node<K, V>>, p: int): array<Node?<K, V>>
    requires -1 <= p < |nodes|
  {
    if p < 0 then head else nodes[p].next
  }

  ghost predicate ShapedAt<K, V>(nodes: seq<Node<K, V>>, p: int) {
    0 <= p < |nodes| ==> 1 <= nodes[p].depth <= MAX_DEPTH && nodes[p].next.Length == nodes[p].depth
  }

  ghost predicate Apart<K, V>(head: array<Node?<K, V>>, nodes: seq<Node<K, V>>, p: int, q: int) {
    -1 <= p < q < |nodes| ==> SlotsOf(head, nodes, p) != SlotsOf(head, nodes, q)
  }

  /** Every tower has a legal height and no two towers share slots. */
  ghost predicate Shaped<K, V>(head: array<Node?<K, V>>, nodes: seq<Node<K, V>>) {
    && head.Length == MAX_DEPTH
    && (forall p :: ShapedAt(nodes, p))
    && (forall p, q :: Apart(head, nodes, p, q))
  }

  lemma ShapedInsert<K, V>(head: array<Node?<K, V>>, nodes: seq<Node<K, V>>, m: nat, n: Node<K, V>)
    requires Shaped(head, nodes) && m <= |nodes|
    requires 1 <= n.depth <= MAX_DEPTH && n.next.Length == n.depth
    requires n.next != head && forall o :: o in nodes ==> n.next != o.next
    ensures Shaped(head, nodes[..m] + [n] + nodes[m..])
  {
    var after := nodes[..m] + [n] + nodes[m..];
    forall p ensures ShapedAt(after, p) { assert ShapedAt(nodes, if p < m then p else p - 1); }
    forall p, q ensures Apart(head, after, p, q) {
      assert Apart(head, nodes, if p < m then p else p - 1, if q < m then q else q - 1);
    }
  }

  lemma ShapedRemove<K, V>(head: array<Node?<K, V>>, nodes: seq<Node<K, V>>, m: nat)
    requires Shaped(head, nodes) && m < |nodes|
    ensures Shaped(head, nodes[..m] + nodes[m + 1..])
  {
    var after := nodes[..m] + nodes[m + 1..];
    forall p ensures ShapedAt(after, p) { assert ShapedAt(nodes, if p < m then p else p + 1); }
    forall p, q ensures Apart(head, after, p, q) {
      assert Apart(head, nodes, if p < m then p else p + 1, if q < m then q else q + 1);
    }
  }

  /** Slot i of position p points to the next node that reaches above level i. */
  ghost predicate LinkedAt<K, V>(head: array<Node?<K, V>>, nodes: seq<Node<K, V>>, p: int, i: int)
    reads head, set n | n in nodes :: n.next
  {
    -1 <= p < |nodes| && 0 <= i < SlotsOf(head, nodes, p).Length ==>
      SlotsOf(head, nodes, p)[i] == NodeAt(nodes, NextAt(nodes, p + 1, i))
  }

  /** LinkedAt once the recorded slots below the height of a new node point to that node instead. */
  ghost predicate SplicedAt<K, V>(head: array<Node?<K, V>>, nodes: seq<Node<K, V>>, iter: Node<K, V>, preds: seq<int>,
                                  p: int, i: int)
    reads head, set n | n in nodes :: n.next
  {
    -1 <= p < |nodes| && 0 <= i < SlotsOf(head, nodes, p).Length ==>
      SlotsOf(head, nodes, p)[i] ==
      if i < iter.depth && i < |preds| && preds[i] == p then iter else NodeAt(nodes, NextAt(nodes, p + 1, i))
  }

  lemma LinkedInsertBelow<K, V>(head: array<Node?<K, V>>, nodes: seq<Node<K, V>>, m: nat, n: Node<K, V>, preds: seq<int>,
                                after: seq<Node<K, V>>, p: int, i: int)
    requires |after| == |nodes| + 1 && m <= |nodes| && after[..m] == nodes[..m] && after[m] == n && after[m + 1..] == nodes[m..]
    requires -1 <= p < m && 0 <= i < |preds| && i < SlotsOf(head, nodes, p).Length
    requires PredOf(nodes, i, m, preds[i]) && (p >= 0 ==> nodes[p].depth > i)
    requires SplicedAt(head, nodes, n, preds, p, i)
    ensures SlotsOf(head, nodes, p)[i] == NodeAt(after, NextAt(after, p + 1, i))
  {
    var pred := preds[i];
    LastBefore(nodes, i, m, pred, p);
    NextAtBelow(nodes, m, n, after, p + 1, i, pred);
  }

  lemma LinkedInsertAbove<K, V>(head: array<Node?<K, V>>, nodes: seq<Node<K, V>>, m: nat, n: Node<K, V>, preds: seq<int>,
                                after: seq<Node<K, V>>, p: int, i: int)
    requires |after| == |nodes| + 1 && m <= |nodes| && after[..m] == nodes[..m] && after[m] == n && after[m + 1..] == nodes[m..]
    requires m < p < |after| && nodes[p - 1] == after[p] && 0 <= i < |preds| && i < SlotsOf(head, after, p).Length
    requires PredOf(nodes, i, m, preds[i]) && SplicedAt(head, nodes, n, preds, p - 1, i)
    ensures SlotsOf(head, after, p)[i] == NodeAt(after, NextAt(after, p + 1, i))
  {
    assert preds[i] < p - 1;
    NextAtAbove(nodes, m, after, p + 1, i, preds[i]);
  }

  lemma LinkedInsertOwn<K, V>(head: array<Node?<K, V>>, nodes: seq<Node<K, V>>, m: nat, n: Node<K, V>, preds: seq<int>,
                              after: seq<Node<K, V>>, i: nat)
    requires |after| == |nodes| + 1 && m <= |nodes| && after[..m] == nodes[..m] && after[m] == n && after[m + 1..] == nodes[m..]
    requires i < |preds| && i < n.next.Length && PredOf(nodes, i, m, preds[i])
    requires n.next[i] == NodeAt(nodes, NextAt(nodes, preds[i] + 1, i))
    ensures n.next[i] == NodeAt(after, NextAt(after, m + 1, i))
  {
    NextAtAbove(nodes, m, after, m + 1, i, preds[i]);
  }

  lemma LinkedInsertAt<K, V>(head: array<Node?<K, V>>, nodes: seq<Node<K, V>>, m: nat, n: Node<K, V>, preds: seq<int>,
                             after: seq<Node<K, V>>, p: int, i: int)
    requires Shaped(head, nodes) && m <= |nodes| && n.next.Length == n.depth <= MAX_DEPTH == |preds|
    requires |after| == |nodes| + 1 && after[..m] == nodes[..m] && after[m] == n && after[m + 1..] == nodes[m..]
    requires -1 <= p < |after| && 0 <= i < SlotsOf(head, after, p).Length
    requires i < MAX_DEPTH ==> PredOf(nodes, i, m, preds[i])
    requires SplicedAt(head, nodes, n, preds, if p < m then p else p - 1, i)
    requires p == m ==> n.next[i] == NodeAt(nodes, NextAt(nodes, preds[i] + 1, i))
    ensures SlotsOf(head, after, p)[i] == NodeAt(after, NextAt(after, p + 1, i))
  {
    if p < m {
      assert 0 <= p ==> after[..m][p] == nodes[..m][p];
      assert ShapedAt(nodes, p);
      LinkedInsertBelow(head, nodes, m, n, preds, after, p, i);
    } else if p > m {
      assert after[m + 1..][p - m - 1] == nodes[m..][p - m - 1];
      assert ShapedAt(nodes, p - 1);
      LinkedInsertAbove(head, nodes, m, n, preds, after, p, i);
    } else {
      LinkedInsertOwn(head, nodes, m, n, preds, after, i);
    }
  }

  lemma LinkedInsert<K, V>(head: array<Node?<K, V>>, nodes: seq<Node<K, V>>, m: nat, n: Node<K, V>, preds: seq<int>,
                           after: seq<Node<K, V>>)
    requires Shaped(head, nodes) && m <= |nodes| && n.next.Length == n.depth <= MAX_DEPTH
    requires after == nodes[..m] + [n] + nodes[m..] && Shaped(head, after)
    requires |preds| == MAX_DEPTH && forall i :: 0 <= i < MAX_DEPTH ==> PredOf(nodes, i, m, preds[i])
    requires forall p, i :: SplicedAt(head, nodes, n, preds, p, i)
    requires forall i :: 0 <= i < n.depth ==>
      -1 <= preds[i] < |nodes| && n.next[i] == NodeAt(nodes, NextAt(nodes, preds[i] + 1, i))
    ensures forall p, i :: LinkedAt(head, after, p, i)
  {
    forall p, i ensures LinkedAt(head, after, p, i) {
      if -1 <= p < |after| && 0 <= i < SlotsOf(head, after, p).Length {
        assert ShapedAt(after, p);
        assert SplicedAt(head, nodes, n, preds, if p < m then p else p - 1, i);
        LinkedInsertAt(head, nodes, m, n, preds, after, p, i);
      }
    }
  }

  lemma SameRest<T>(a: seq<T>, b: seq<T>, i: nat, j: nat, d: nat)
    requires i + d <= |a| && j + d <= |b| && a[i..] == b[j..]
    ensures a[i + d..] == b[j + d..]
  {
    assert a[i + d..] == a[i..][d..] && b[j + d..] == b[j..][d..];
  }

  /** How one new node at position m moves the links of a level, seen from behind it. */
  lemma NextAtAbove<K, V>(nodes: seq<Node<K, V>>, m: nat, after: seq<Node<K, V>>, q: nat, i: nat, pred: int)
    requires m < q <= |after| == |nodes| + 1 && PredOf(nodes, i, m, pred)
    requires after[m + 1..] == nodes[m..]
    ensures NodeAt(after, NextAt(after, q, i)) == NodeAt(nodes, NextAt(nodes, q - 1, i))
    ensures NextAt(nodes, m, i) == NextAt(nodes, pred + 1, i)
  {
    NextAtSkip(nodes, pred + 1, m, i);
    SameRest(nodes, after, m, m + 1, q - 1 - m);
    NextAtShift(nodes, after, q - 1, q, i);
  }

  /** How one new node at position m moves the links of a level, seen from before it. */
  lemma NextAtBelow<K, V>(nodes: seq<Node<K, V>>, m: nat, n: Node<K, V>, after: seq<Node<K, V>>, q: nat, i: nat, pred: int)
    requires q <= m < |after| == |nodes| + 1 && PredOf(nodes, i, m, pred)
    requires after[..m] == nodes[..m] && after[m] == n && after[m + 1..] == nodes[m..]
    ensures NodeAt(after, NextAt(after, q, i)) ==
            if pred < q && n.depth > i then n else NodeAt(nodes, NextAt(nodes, q, i))
    ensures pred < q ==> NextAt(nodes, q, i) == NextAt(nodes, pred + 1, i)
  {
    NextAtPrefix(nodes, after, q, m, i);
    if pred < q {
      NextAtSkip(nodes, pred + 1, q, i);
      NextAtSkip(nodes, q, m, i);
      assert nodes[m..] == after[m + 1..];
      NextAtShift(nodes, after, m, m + 1, i);
      assert NextAt(after, m, i) == if n.depth > i then m else NextAt(after, m + 1, i);
    } else {
      NextAtMost(nodes, q, pred, i);
      assert nodes[..m][NextAt(nodes, q, i)] == after[..m][NextAt(nodes, q, i)];
    }
  }

  /** LinkedAt once the recorded slots below the height of the node at position m bypass that node. */
  ghost predicate BypassedAt<K, V>(head: array<Node?<K, V>>, nodes: seq<Node<K, V>>, m: nat, preds: seq<int>,
                                   p: int, i: int)
    reads head, set n | n in nodes :: n.next
  {
    -1 <= p < |nodes| && m < |nodes| && 0 <= i < SlotsOf(head, nodes, p).Length ==>
      SlotsOf(head, nodes, p)[i] ==
      NodeAt(nodes, NextAt(nodes, if i < nodes[m].depth && i < |preds| && preds[i] == p then m + 1 else p + 1, i))
  }

  lemma NextAtBypass<K, V>(nodes: seq<Node<K, V>>, m: nat, after: seq<Node<K, V>>, p: int, i: nat, pred: int)
    requires m < |nodes| == |after| + 1 && after[..m] == nodes[..m] && after[m..] == nodes[m + 1..]
    requires -1 <= p < m && PredOf(nodes, i, m, pred) && (p >= 0 ==> nodes[p].depth > i)
    ensures NodeAt(after, NextAt(after, p + 1, i)) ==
            NodeAt(nodes, NextAt(nodes, if i < nodes[m].depth && pred == p then m + 1 else p + 1, i))
  {
    PredOfRemove(nodes, after, m, i, pred);
    LastBefore(nodes, i, m, pred, p);
    if pred == p && i < nodes[m].depth {
      NextAtAbove(after, m, nodes, m + 1, i, pred);
    } else {
      NextAtBelow(after, m, nodes[m], nodes, p + 1, i, pred);
    }
  }

  lemma LinkedRemoveAt<K, V>(head: array<Node?<K, V>>, nodes: seq<Node<K, V>>, m: nat, preds: seq<int>,
                             after: seq<Node<K, V>>, p: int, i: int)
    requires Shaped(head, nodes) && m < |nodes| && |preds| == MAX_DEPTH
    requires |nodes| == |after| + 1 && after[..m] == nodes[..m] && after[m..] == nodes[m + 1..]
    requires -1 <= p < |after| && 0 <= i < SlotsOf(head, after, p).Length
    requires i < MAX_DEPTH ==> PredOf(nodes, i, m, preds[i])
    requires BypassedAt(head, nodes, m, preds, if p < m then p else p + 1, i)
    ensures SlotsOf(head, after, p)[i] == NodeAt(after, NextAt(after, p + 1, i))
  {
    if p < m {
      assert 0 <= p ==> after[..m][p] == nodes[..m][p];
      assert ShapedAt(nodes, p);
      NextAtBypass(nodes, m, after, p, i, preds[i]);
    } else {
      assert after[m..][p - m] == nodes[m + 1..][p - m];
      assert ShapedAt(nodes, p + 1);
      PredOfRemove(nodes, after, m, i, preds[i]);
      NextAtAbove(after, m, nodes, p + 2, i, preds[i]);
    }
  }

  lemma PredOfRemove<K, V>(nodes: seq<Node<K, V>>, after: seq<Node<K, V>>, m: nat, i: nat, pred: int)
    requires m < |nodes| == |after| + 1 && after[..m] == nodes[..m] && PredOf(nodes, i, m, pred)
    ensures PredOf(after, i, m, pred)
  {
    NextAtPrefix(after, nodes, pred + 1, m, i);
    if pred >= 0 { assert after[..m][pred] == nodes[..m][pred]; }
  }

  lemma LinkedRemove<K, V>(head: array<Node?<K, V>>, nodes: seq<Node<K, V>>, m: nat, preds: seq<int>,
                           after: seq<Node<K, V>>)
    requires Shaped(head, nodes) && m < |nodes|
    requires after == nodes[..m] + nodes[m + 1..] && Shaped(head, after)
    requires |preds| == MAX_DEPTH && forall i :: 0 <= i < MAX_DEPTH ==> PredOf(nodes, i, m, preds[i])
    requires forall p, i :: BypassedAt(head, nodes, m, preds, p, i)
    ensures forall p, i :: LinkedAt(head, after, p, i)
  {
    forall p, i ensures LinkedAt(head, after, p, i) {
      if -1 <= p < |after| && 0 <= i < SlotsOf(head, after, p).Length {
        assert ShapedAt(after, p);
        assert BypassedAt(head, nodes, m, preds, if p < m then p else p + 1, i);
        LinkedRemoveAt(head, nodes, m, preds, after, p, i);
      }
    }
  }

  /** Following level i from a node visits exactly the given nodes and then stops. */
  ghost predicate IsChain<K, V>(start: Node?<K, V>, i: nat, chain: seq<Node<K, V>>)
    reads set n | n in chain :: n.next
  {
    if chain == [] then start == null
    else start == chain[0] && i < start.next.Length && IsChain(start.next[i], i, chain[1..])
  }

  lemma {:induction false} TowerMembers<K, V>(nodes: seq<Node<K, V>>, q: nat, i: nat, n: Node<K, V>)
    requires q <= |nodes|
    ensures n in Tower(nodes, q, i) <==> n in nodes[q..] && n.depth > i
    decreases |nodes| - q
  {
    if q < |nodes| {
      assert nodes[q..] == [nodes[q]] + nodes[q + 1..];
      TowerMembers(nodes, q + 1, i, n);
    }
  }

  lemma {:induction false} TowerNext<K, V>(nodes: seq<Node<K, V>>, q: nat, i: nat)
    requires q <= |nodes|
    ensures var r := NextAt(nodes, q, i);
      Tower(nodes, q, i) == if r == |nodes| then [] else [nodes[r]] + Tower(nodes, r + 1, i)
    decreases |nodes| - q
  {
    if q < |nodes| { TowerNext(nodes, q + 1, i); }
  }

  class SkipList<K(!new), V> {
    const cmp: (K, K) -> int
    /** Whether a callback that frees items was installed. */
    const freesItems: bool
    const entries: array<Node?<K, V>>
    var size: nat
    ghost var nodes: seq<Node<K, V>>
    /** The items handed to the callback so far, in order. */
    ghost var freed: seq<Entry<K, V>>

    ghost function Footprint(): set<object>
      reads this
    {
      {this} + Arrays()
    }

    /** Every array that holds slots. */
    ghost function Arrays(): set<array<Node?<K, V>>>
      reads this`nodes
    {
      {entries} + set n | n in nodes :: n.next
    }

    ghost function Slots(p: int): array<Node?<K, V>>
      requires -1 <= p < |nodes|
      reads this`nodes
    {
      SlotsOf(entries, nodes, p)
    }

    ghost predicate Valid()
      reads this`nodes, this`size, entries, set n | n in nodes :: n.next
    {
      && TotalOrder(cmp)
      && Shaped(entries, nodes)
      && size == |nodes|
      && (forall p, i :: LinkedAt(entries, nodes, p, i))
      && Sorted(cmp, Contents())
    }

    ghost function Contents(): (s: seq<Entry<K, V>>)
      reads this`nodes
    {
      Items(nodes)
    }

    ghost function Snapshot(): State<K, V>
      reads this`nodes, this`freed
    {
      State(Contents(), freed)
    }

    constructor (cmp: (K, K) -> int, freesItems: bool)
      requires TotalOrder(cmp)
      ensures Valid() && fresh(Footprint())
      ensures this.cmp == cmp && this.freesItems == freesItems
      ensures Snapshot() == Run(cmp, freesItems, [])
    {
      this.cmp, this.freesItems := cmp, freesItems;
      entries := new Node?<K, V>[MAX_DEPTH](_ => null);
      size := 0;
      nodes, freed := [], [];
    }

    /** The node a slot points to is on one known side of the lower bound of a key. */
    lemma SlotNode(key: K, p: int, i: int)
      requires Valid() && -1 <= p < |nodes| && 0 <= i < Slots(p).Length
      ensures var iter := Slots(p)[i]; var r := NextAt(nodes, p + 1, i); var m := LowerBound(cmp, Contents(), key);
        && m <= |nodes|
        && iter == NodeAt(nodes, r)
        && (iter == null ==> r >= m)
        && (r >= m && p < m ==> PredOf(nodes, i, m, p))
        && (iter != null ==> r < |nodes| && iter.next == Slots(r) && iter.next.Length == iter.depth && iter.depth > i)
        && (iter != null && cmp(iter.key, key) < 0 ==> r < m)
        && (iter != null && cmp(iter.key, key) == 0 ==> r == m && Has(cmp, Contents(), key))
        && (iter != null && cmp(iter.key, key) > 0 ==> r >= m && (r == m ==> !Has(cmp, Contents(), key)))
    {
      Split(cmp, Contents(), key);
      assert LinkedAt(entries, nodes, p, i);
      assert ShapedAt(nodes, p) && ShapedAt(nodes, NextAt(nodes, p + 1, i));
    }

    /** On level 0 every slot points to the very next node. */
    lemma GroundNode(p: int)
      requires Valid() && -1 <= p < |nodes|
      ensures Slots(p).Length > 0 && NextAt(nodes, p + 1, 0) == p + 1
    {
      assert ShapedAt(nodes, p) && ShapedAt(nodes, p + 1);
    }

    /** Each level links exactly the nodes that reach above it, in the order of level 0. */
    lemma LevelChain(i: nat)
      requires Valid() && i < MAX_DEPTH
      ensures IsChain(entries[i], i, Tower(nodes, 0, i))
      ensures forall n :: n in Tower(nodes, 0, i) <==> n in nodes && n.depth > i
    {
      assert LinkedAt(entries, nodes, -1, i);
      ChainFrom(0, i);
      forall n ensures n in Tower(nodes, 0, i) <==> n in nodes && n.depth > i {
        TowerMembers(nodes, 0, i, n);
        assert nodes[0..] == nodes;
      }
    }

    lemma ChainStep(r: nat, i: nat, rest: seq<Node<K, V>>)
      requires Valid() && r < |nodes| && i < nodes[r].depth
      requires IsChain(NodeAt(nodes, NextAt(nodes, r + 1, i)), i, rest)
      ensures IsChain(nodes[r], i, [nodes[r]] + rest)
    {
      assert ShapedAt(nodes, r) && LinkedAt(entries, nodes, r, i);
      assert ([nodes[r]] + rest)[1..] == rest;
    }

    lemma {:induction false} ChainFrom(q: nat, i: nat)
      requires Valid() && q <= |nodes| && i < MAX_DEPTH
      ensures IsChain(NodeAt(nodes, NextAt(nodes, q, i)), i, Tower(nodes, q, i))
      decreases |nodes| - q
    {
      var r := NextAt(nodes, q, i);
      TowerNext(nodes, q, i);
      if r < |nodes| {
        var rest := Tower(nodes, r + 1, i);
        ChainFrom(r + 1, i);
        ChainStep(r, i, rest);
      }
    }

    /** The keys along a level are strictly increasing. */
    lemma {:induction false} ChainSorted(q: nat, i: nat, a: nat, b: nat)
      requires Valid() && q <= |nodes| && a < b < |Tower(nodes, q, i)|
      ensures cmp(Tower(nodes, q, i)[a].key, Tower(nodes, q, i)[b].key) < 0
      decreases |nodes| - q
    {
      if nodes[q].depth > i {
        if a == 0 {
          var n := Tower(nodes, q, i)[b];
          assert n in Tower(nodes, q + 1, i);
          TowerMembers(nodes, q + 1, i, n);
          var j :| 0 <= j < |nodes[q + 1..]| && nodes[q + 1..][j] == n;
          assert Below(cmp, Contents(), q, q + 1 + j);
        } else {
          ChainSorted(q + 1, i, a - 1, b - 1);
        }
      } else {
        ChainSorted(q + 1, i, a, b);
      }
    }

    /** The descent of skiplist_search_iter. */
    method SearchIter(key: K, exact: bool) returns (iter: Node?<K, V>)
      requires Valid()
      ensures iter == if exact && !Has(cmp, Contents(), key) then null
                      else NodeAt(nodes, LowerBound(cmp, Contents(), key))
    {
      var i := MAX_DEPTH - 1;
      var slots := entries;
      iter := null;
      ghost var m := LowerBound(cmp, Contents(), key);
      ghost var p: int := -1;
      while i >= 0
        invariant -1 <= i < MAX_DEPTH
        invariant -1 <= p < m && slots == Slots(p)
        invariant i < slots.Length
        invariant i < 0 ==> iter == NodeAt(nodes, m) && !Has(cmp, Contents(), key)
        decreases i + 1, m - p
      {
        iter := slots[i];
        SlotNode(key, p, i);
        GroundNode(p);
        if iter == null {
          i := i - 1;
          continue;
        }
        var c := cmp(iter.key, key);
        if c == 0 {
          return;
        } else if c > 0 {
          i := i - 1;
        } else {
          slots := iter.next;
          p := NextAt(nodes, p + 1, i);
        }
      }
      if exact {
        iter := null;
      }
    }

    method Search(key: K) returns (iter: Node?<K, V>)
      requires Valid()
      ensures iter != null <==> Lookup(cmp, Contents(), key).Some?
      ensures iter != null ==> iter in nodes && cmp(iter.key, key) == 0 && Lookup(cmp, Contents(), key) == Some(iter.val)
    {
      LookupAt(cmp, Contents(), key);
      iter := SearchIter(key, true);
    }

    /** The first item whose key is not below the given one, or null. */
    method FindStart(key: K) returns (iter: Node?<K, V>)
      requires Valid()
      ensures iter == null ==> forall n :: n in nodes ==> cmp(n.key, key) < 0
      ensures iter != null ==> iter in nodes && cmp(iter.key, key) >= 0
      ensures iter != null ==> forall n :: n in nodes && cmp(n.key, key) >= 0 ==> n == iter || cmp(iter.key, n.key) < 0
    {
      iter := SearchIter(key, false);
      ghost var m := LowerBound(cmp, Contents(), key);
      forall n | n in nodes && cmp(n.key, key) >= 0
        ensures m < |nodes| && (n == nodes[m] || cmp(nodes[m].key, n.key) < 0)
      {
        var j :| 0 <= j < |nodes| && nodes[j] == n;
        assert Contents()[j].key == n.key;
        assert Below(cmp, Contents(), m, j);
      }
    }

    /** Whether stack[i] holds, for every level from `level` up, the slots of the last node before position m. */
    ghost predicate IsStack(stack: seq<array<Node?<K, V>>>, preds: seq<int>, m: nat, level: int)
      reads this
    {
      && |stack| == |preds| == MAX_DEPTH
      && forall i :: 0 <= level <= i < MAX_DEPTH ==> PredOf(nodes, i, m, preds[i]) && stack[i] == Slots(preds[i])
    }

    lemma PushStack(stack: seq<array<Node?<K, V>>>, preds: seq<int>, m: nat, i: nat, slots: array<Node?<K, V>>, p: int)
      requires IsStack(stack, preds, m, i + 1) && i < MAX_DEPTH
      requires PredOf(nodes, i, m, p) && slots == Slots(p)
      ensures IsStack(stack[i := slots], preds[i := p], m, i)
    {
    }

    method InsertStack(key: K) returns (duplicate: bool, stack: seq<array<Node?<K, V>>>, ghost preds: seq<int>)
      requires Valid()
      ensures duplicate == Has(cmp, Contents(), key)
      ensures !duplicate ==> IsStack(stack, preds, LowerBound(cmp, Contents(), key), 0)
    {
      var i := MAX_DEPTH - 1;
      var slots := entries;
      stack := seq(MAX_DEPTH, _ => slots);
      preds := seq(MAX_DEPTH, _ => -1);
      ghost var m := LowerBound(cmp, Contents(), key);
      ghost var p: int := -1;
      while i >= 0
        invariant -1 <= i < MAX_DEPTH
        invariant -1 <= p < m && slots == Slots(p)
        invariant i < slots.Length
        invariant IsStack(stack, preds, m, i + 1)
        invariant i < 0 ==> !Has(cmp, Contents(), key)
        decreases i + 1, m - p
      {
        var iter := slots[i];
        SlotNode(key, p, i);
        GroundNode(p);
        if PredOf(nodes, i, m, p) {
          PushStack(stack, preds, m, i, slots, p);
        }
        if iter == null {
          stack, preds, i := stack[i := slots], preds[i := p], i - 1;
          continue;
        }
        var c := cmp(iter.key, key);
        if c > 0 {
          stack, preds, i := stack[i := slots], preds[i := p], i - 1;
        } else if c == 0 {
          return true, stack, preds;
        } else {
          slots := iter.next;
          p := NextAt(nodes, p + 1, i);
        }
      }
      duplicate := false;
    }

    /** Links a new node behind the recorded slots, level by level. */
    method Splice(iter: Node<K, V>, stack: seq<array<Node?<K, V>>>, ghost arrays: set<array<Node?<K, V>>>)
      requires iter.next.Length == iter.depth <= |stack| && iter.next !in arrays
      requires forall t :: 0 <= t < iter.depth ==> stack[t] in arrays && t < stack[t].Length
      modifies iter.next, arrays
      ensures forall t :: 0 <= t < iter.depth ==> iter.next[t] == old(stack[t][t])
      ensures forall a, t :: a in arrays && 0 <= t < a.Length ==>
        a[t] == if t < iter.depth && a == stack[t] then iter else old(a[t])
    {
      for i := 0 to iter.depth
        invariant forall t :: 0 <= t < i ==> iter.next[t] == old(stack[t][t])
        invariant forall a, t :: a in arrays && 0 <= t < a.Length ==>
          a[t] == if t < i && a == stack[t] then iter else old(a[t])
      {
        iter.next[i] := stack[i][i];
        stack[i][i] := iter;
      }
    }

    /** Inserts an item; depth is the outcome of the random draw. */
    method Insert(key: K, val: V, depth: nat)
      requires Valid() && 1 <= depth <= MAX_DEPTH
      modifies this, Arrays()
      ensures Valid() && fresh(Footprint() - old(Footprint()))
      ensures Snapshot() == Step(cmp, freesItems, old(Snapshot()), Op.Insert(key, val))
      ensures Has(cmp, old(Contents()), key) ==> nodes == old(nodes)
      ensures !Has(cmp, old(Contents()), key) ==>
        var m := LowerBound(cmp, old(Contents()), key);
        |nodes| == |old(nodes)| + 1 && fresh(nodes[m]) && nodes[m].depth == depth &&
        nodes == old(nodes)[..m] + [nodes[m]] + old(nodes)[m..]
    {
      var duplicate, stack, preds := InsertStack(key);
      ghost var m := LowerBound(cmp, Contents(), key);
      if duplicate {
        if freesItems {
          freed := freed + [Entry(key, val)];
        }
      } else {
        var iter := new Node(key, val, depth);
        PutIn(iter, stack, preds, m);
        ItemsWith(old(nodes), m, iter);
        InsertedSorted(cmp, old(Contents()), key, val);
      }
    }

    /** Links a node at position m into every level it reaches. */
    method PutIn(iter: Node<K, V>, stack: seq<array<Node?<K, V>>>, ghost preds: seq<int>, ghost m: nat)
      requires Valid() && m <= |nodes| && IsStack(stack, preds, m, 0)
      requires iter.next !in Arrays() && iter.next.Length == iter.depth && 1 <= iter.depth <= MAX_DEPTH
      modifies this`nodes, this`size, iter.next, Arrays()
      ensures nodes == old(nodes[..m] + [iter] + nodes[m..]) && size == |nodes|
      ensures Shaped(entries, nodes) && forall p, t :: LinkedAt(entries, nodes, p, t)
    {
      Link(iter, stack, preds, m);
      ghost var after := nodes[..m] + [iter] + nodes[m..];
      ShapedInsert(entries, nodes, m, iter);
      LinkedInsert(entries, nodes, m, iter, preds, after);
      nodes := after;
      size := size + 1;
    }

    method Link(iter: Node<K, V>, stack: seq<array<Node?<K, V>>>, ghost preds: seq<int>, ghost m: nat)
      requires Valid() && IsStack(stack, preds, m, 0)
      requires iter.next !in Arrays() && iter.next.Length == iter.depth <= MAX_DEPTH
      modifies iter.next, Arrays()
      ensures forall p, t :: SplicedAt(entries, nodes, iter, preds, p, t)
      ensures forall t :: 0 <= t < iter.depth ==>
        -1 <= preds[t] < |nodes| && iter.next[t] == NodeAt(nodes, NextAt(nodes, preds[t] + 1, t))
    {
      StackFits(stack, preds, m);
      Splice(iter, stack, Arrays());
      forall p, t ensures SplicedAt(entries, nodes, iter, preds, p, t) {
        if -1 <= p < |nodes| && 0 <= t < Slots(p).Length {
          assert ShapedAt(nodes, p);
          assert old(LinkedAt(entries, nodes, p, t));
          assert Apart(entries, nodes, p, preds[t]) && Apart(entries, nodes, preds[t], p);
        }
      }
      forall t | 0 <= t < iter.depth
        ensures -1 <= preds[t] < |nodes| && iter.next[t] == NodeAt(nodes, NextAt(nodes, preds[t] + 1, t))
      {
        assert old(LinkedAt(entries, nodes, preds[t], t));
      }
    }

    lemma StackFits(stack: seq<array<Node?<K, V>>>, preds: seq<int>, m: nat)
      requires Valid() && IsStack(stack, preds, m, 0)
      ensures forall t :: 0 <= t < MAX_DEPTH ==> stack[t] in Arrays() && t < stack[t].Length
    {
      forall t | 0 <= t < MAX_DEPTH ensures stack[t] in Arrays() && t < stack[t].Length {
        assert ShapedAt(nodes, preds[t]) && PredOf(nodes, t, m, preds[t]);
      }
    }

    method RemoveStack(key: K) returns (ret: Node?<K, V>, stack: seq<array<Node?<K, V>>>, ghost preds: seq<int>)
      requires Valid()
      ensures ret == if Has(cmp, Contents(), key) then NodeAt(nodes, LowerBound(cmp, Contents(), key)) else null
      ensures Has(cmp, Contents(), key) ==> IsStack(stack, preds, LowerBound(cmp, Contents(), key), 0)
    {
      var i := MAX_DEPTH - 1;
      var slots := entries;
      ret := null;
      stack := seq(MAX_DEPTH, _ => slots);
      preds := seq(MAX_DEPTH, _ => -1);
      ghost var m := LowerBound(cmp, Contents(), key);
      ghost var p: int := -1;
      while i >= 0
        invariant -1 <= i < MAX_DEPTH
        invariant -1 <= p < m && slots == Slots(p)
        invariant i < slots.Length
        invariant IsStack(stack, preds, m, i + 1)
        invariant i < 0 ==> !Has(cmp, Contents(), key)
        invariant ret != null ==> Has(cmp, Contents(), key)
        decreases i + 1, m - p
      {
        var iter := slots[i];
        SlotNode(key, p, i);
        GroundNode(p);
        if PredOf(nodes, i, m, p) {
          PushStack(stack, preds, m, i, slots, p);
        }
        if iter == null {
          stack, preds, i := stack[i := slots], preds[i := p], i - 1;
          continue;
        }
        var c := cmp(iter.key, key);
        if c == 0 {
          ret := iter;
          stack, preds := stack[i := slots], preds[i := p];
          if i == 0 {
            return;
          }
          i := i - 1;
        } else if c < 0 {
          slots := iter.next;
          p := NextAt(nodes, p + 1, i);
        } else {
          if i == 0 {
            return;
          }
          stack, preds, i := stack[i := slots], preds[i := p], i - 1;
        }
      }
    }

    /** Makes the recorded slots bypass a node, level by level. */
    method Bypass(iter: Node<K, V>, stack: seq<array<Node?<K, V>>>, ghost arrays: set<array<Node?<K, V>>>)
      requires iter.next.Length == iter.depth <= |stack|
      requires forall t :: 0 <= t < iter.depth ==> stack[t] in arrays && stack[t] != iter.next && t < stack[t].Length
      modifies arrays
      ensures forall a, t :: a in arrays && 0 <= t < a.Length ==>
        a[t] == if t < iter.depth && a == stack[t] then old(iter.next[t]) else old(a[t])
    {
      for i := 0 to iter.depth
        invariant forall t :: 0 <= t < iter.depth ==> iter.next[t] == old(iter.next[t])
        invariant forall a, t :: a in arrays && 0 <= t < a.Length ==>
          a[t] == if t < i && a == stack[t] then old(iter.next[t]) else old(a[t])
      {
        stack[i][i] := iter.next[i];
      }
    }

    method Unlink(iter: Node<K, V>, stack: seq<array<Node?<K, V>>>, ghost preds: seq<int>, ghost m: nat)
      requires Valid() && m < |nodes| && iter == nodes[m] && IsStack(stack, preds, m, 0)
      modifies Arrays()
      ensures forall p, t :: BypassedAt(entries, nodes, m, preds, p, t)
      ensures stack[0].Length > 0 && stack[0][0] == NodeAt(nodes, m + 1)
    {
      StackFits(stack, preds, m);
      GroundNode(m);
      assert ShapedAt(nodes, m);
      forall t | 0 <= t < MAX_DEPTH ensures stack[t] != iter.next {
        assert Apart(entries, nodes, preds[t], m) && PredOf(nodes, t, m, preds[t]);
      }
      Bypass(iter, stack, Arrays());
      forall p, t ensures BypassedAt(entries, nodes, m, preds, p, t) {
        if -1 <= p < |nodes| && 0 <= t < Slots(p).Length {
          assert ShapedAt(nodes, p);
          assert old(LinkedAt(entries, nodes, p, t)) && old(LinkedAt(entries, nodes, m, t));
          assert Apart(entries, nodes, p, preds[t]) && Apart(entries, nodes, preds[t], p);
        }
      }
      assert BypassedAt(entries, nodes, m, preds, preds[0], 0);
    }

    /** Takes the node at position m out of every level it reaches. */
    method TakeOut(iter: Node<K, V>, stack: seq<array<Node?<K, V>>>, ghost preds: seq<int>, ghost m: nat)
      requires Valid() && m < |nodes| && iter == nodes[m] && IsStack(stack, preds, m, 0)
      modifies this`nodes, this`size, Arrays()
      ensures nodes == old(nodes[..m] + nodes[m + 1..]) && size == |nodes|
      ensures Shaped(entries, nodes) && forall p, t :: LinkedAt(entries, nodes, p, t)
      ensures stack[0].Length > 0 && stack[0][0] == NodeAt(nodes, m)
    {
      Unlink(iter, stack, preds, m);
      ghost var after := nodes[..m] + nodes[m + 1..];
      ShapedRemove(entries, nodes, m);
      LinkedRemove(entries, nodes, m, preds, after);
      nodes := after;
      if size > 0 {
        size := size - 1;
      }
    }

    /** Takes out the node with the key, which keeps the rest in order. */
    method TakeKey(key: K, iter: Node<K, V>, stack: seq<array<Node?<K, V>>>, ghost preds: seq<int>)
      requires Valid() && Has(cmp, Contents(), key) && iter == nodes[LowerBound(cmp, Contents(), key)]
      requires IsStack(stack, preds, LowerBound(cmp, Contents(), key), 0)
      modifies this`nodes, this`size, Arrays()
      ensures Valid() && Contents() == Removed(cmp, old(Contents()), key)
      ensures var m := LowerBound(cmp, old(Contents()), key);
        && nodes == old(nodes)[..m] + old(nodes)[m + 1..]
        && stack[0].Length > 0 && stack[0][0] == NodeAt(nodes, m)
    {
      ghost var m := LowerBound(cmp, Contents(), key);
      TakeOut(iter, stack, preds, m);
      ItemsWithout(old(nodes), m);
      RemovedSorted(cmp, old(Contents()), key);
    }

    /** Removes an item and returns the node that followed it. */
    method Remove(key: K) returns (ret: Node?<K, V>)
      requires Valid()
      modifies this, Arrays()
      ensures Valid() && forall n :: n in nodes ==> n in old(nodes)
      ensures Snapshot() == Step(cmp, freesItems, old(Snapshot()), Op.Remove(key))
      ensures var was := old(Contents()); var m := LowerBound(cmp, was, key);
        if Has(cmp, was, key) then
          nodes == old(nodes)[..m] + old(nodes)[m + 1..] && ret == NodeAt(nodes, m)
        else nodes == old(nodes) && ret == null
    {
      var iter, stack, preds := RemoveStack(key);
      if iter == null {
        ret := null;
      } else {
        TakeKey(key, iter, stack, preds);
        if freesItems {
          freed := freed + [Entry(iter.key, iter.val)];
        }
        ret := stack[0][0];
      }
    }

    /** Hands every item to the callback in order and empties the index. */
    method Clear()
      requires Valid()
      modifies this, entries
      ensures Valid() && nodes == []
      ensures Snapshot() == Step(cmp, freesItems, old(Snapshot()), Op.Clear)
    {
      GroundNode(-1);
      assert LinkedAt(entries, nodes, -1, 0);
      var iter := entries[0];
      ghost var p := 0;
      while iter != null
        modifies `freed
        invariant p <= |nodes| && iter == NodeAt(nodes, p)
        invariant freed == old(freed) + if freesItems then old(Contents())[..p] else []
        decreases |nodes| - p
      {
        GroundNode(p);
        assert LinkedAt(entries, nodes, p, 0);
        var next := iter.next[0];
        if freesItems {
          freed := freed + [Entry(iter.key, iter.val)];
        }
        iter := next;
        p := p + 1;
      }
      for i := 0 to MAX_DEPTH
        modifies entries
        invariant forall t :: 0 <= t < i ==> entries[t] == null
      {
        entries[i] := null;
      }
      size := 0;
      nodes := [];
    }
  }
}

/** Reassembly of a SORT reply with GET patterns into records: the flat,
    decoded reply is cut into consecutive groups of as many elements as the
    query has GET patterns, and each full group is handed to the bulk mapper. */
module Sorting {
  import opened Common

  /** The part of a sort query the reassembly reads: its GET patterns. */
  datatype SortQuery = SortQuery(getPattern: seq<string>)

  /** At least one copy of `b`. */
  lemma {:induction false} MulMono(x: int, b: nat)
    requires x >= 1
    ensures x * b >= b
  {
    if x > 1 {
      MulMono(x - 1, b);
      assert x * b == (x - 1) * b + b;
    }
  }
  /** The only multiple of `b` strictly between `-b` and `b` is zero. */
  lemma {:induction false} SmallMultiple(x: int, b: nat)
    requires b > 0 && -(b as int) < x * b < b
    ensures x == 0
  {
    if x >= 1 {
      MulMono(x, b);
    }
  }
  /** A length made of `k` full groups of `b` and `rest < b` leftovers holds
      exactly `k` groups. */
  lemma {:induction false} GroupCount(n: nat, b: nat, k: nat, rest: nat)
    requires 0 < b && rest < b && n == k * b + rest
    ensures n / b == k
  {
    var q, m := n / b, n % b;
    assert n == q * b + m;
    assert (k - q) * b == m - rest;
    SmallMultiple(k - q, b);
  }

  /** The records of `vs` cut into groups of `b`: each full group mapped, a
      short tail dropped. */
  function Bulks<S, T>(vs: seq<S>, b: nat, mapBulk: seq<S> -> T): (rs: seq<T>)
    requires b > 0
    ensures rs == [] <==> |vs| < b
    decreases |vs|
  {
    if |vs| < b then [] else [mapBulk(vs[..b])] + Bulks(vs[b..], b, mapBulk)
  }

  /** Bulks holds as many records as full groups fit into `vs`. */
  lemma {:induction false} BulksLength<S, T>(vs: seq<S>, b: nat, mapBulk: seq<S> -> T)
    requires b > 0
    ensures |Bulks(vs, b, mapBulk)| * b <= |vs| < |Bulks(vs, b, mapBulk)| * b + b
    decreases |vs|
  {
    if |vs| >= b {
      BulksLength(vs[b..], b, mapBulk);
      var n := |Bulks(vs[b..], b, mapBulk)|;
      assert |Bulks(vs, b, mapBulk)| == n + 1;
      assert (n + 1) * b == n * b + b;
    }
  }

  /** Record `j` of Bulks is the mapped group at offset `j * b`. */
  lemma {:induction false} BulksAt<S, T>(vs: seq<S>, b: nat, mapBulk: seq<S> -> T, j: nat)
    requires b > 0 && j < |Bulks(vs, b, mapBulk)|
    ensures (j + 1) * b <= |vs|
    ensures Bulks(vs, b, mapBulk)[j] == mapBulk(vs[j * b..(j + 1) * b])
    decreases j
  {
    if j > 0 {
      var tail := vs[b..];
      assert Bulks(vs, b, mapBulk)[j] == Bulks(tail, b, mapBulk)[j - 1];
      BulksAt(tail, b, mapBulk, j - 1);
      assert j * b == (j - 1) * b + b && (j + 1) * b == j * b + b;
      assert tail[(j - 1) * b..j * b] == vs[j * b..(j + 1) * b];
    }
  }

  /** A full group appended after whole groups adds one record. */
  lemma {:induction false} BulksAppend<S, T>(p: seq<S>, g: seq<S>, b: nat, k: nat, mapBulk: seq<S> -> T)
    requires b > 0 && |p| == k * b && |g| == b
    ensures Bulks(p + g, b, mapBulk) == Bulks(p, b, mapBulk) + [mapBulk(g)]
    decreases k
  {
    if k == 0 {
      assert p + g == g && g[..b] == g && g[b..] == [];
    } else {
      assert |p[b..]| == (k - 1) * b;
      BulksAppend(p[b..], g, b, k - 1, mapBulk);
      assert (p + g)[..b] == p[..b];
      assert (p + g)[b..] == p[b..] + g;
    }
  }

  /** A short tail after whole groups adds no record. */
  lemma {:induction false} BulksDropTail<S, T>(p: seq<S>, t: seq<S>, b: nat, k: nat, mapBulk: seq<S> -> T)
    requires b > 0 && |p| == k * b && |t| < b
    ensures Bulks(p + t, b, mapBulk) == Bulks(p, b, mapBulk)
    decreases k
  {
    if k == 0 {
      assert p + t == t;
    } else {
      assert |p[b..]| == (k - 1) * b;
      BulksDropTail(p[b..], t, b, k - 1, mapBulk);
      assert (p + t)[..b] == p[..b];
      assert (p + t)[b..] == p[b..] + t;
    }
  }

  /** The reference reading of the reply holds `|vs| / b` records, and the
      fewer than `b` elements past the last full group are dropped. */
  lemma {:induction false} BulksCount<S, T>(vs: seq<S>, b: nat, mapBulk: seq<S> -> T)
    requires b > 0
    ensures |Bulks(vs, b, mapBulk)| == |vs| / b
    ensures 0 <= |vs| - |Bulks(vs, b, mapBulk)| * b < b
  {
    var n := |Bulks(vs, b, mapBulk)|;
    BulksLength(vs, b, mapBulk);
    GroupCount(|vs|, b, n, |vs| - n * b);
  }

  /** One more full group read in the loop of `SortBulk` adds its record. */
  lemma GroupComplete<S, T>(vs: seq<S>, start: nat, bulk: seq<S>, b: nat, records: seq<T>, mapBulk: seq<S> -> T)
    requires b > 0 && start + b <= |vs| && bulk == vs[start..start + b]
    requires start == |records| * b && records == Bulks(vs[..start], b, mapBulk)
    ensures records + [mapBulk(bulk)] == Bulks(vs[..start + b], b, mapBulk)
    ensures start + b == |records + [mapBulk(bulk)]| * b
  {
    assert vs[..start + b] == vs[..start] + bulk;
    BulksAppend(vs[..start], bulk, b, |records|, mapBulk);
  }

  /** The partial group left when the loop of `SortBulk` ends adds nothing. */
  lemma TailDropped<S, T>(vs: seq<S>, start: nat, b: nat, records: seq<T>, mapBulk: seq<S> -> T)
    requires b > 0 && start <= |vs| < start + b
    requires start == |records| * b && records == Bulks(vs[..start], b, mapBulk)
    ensures records == Bulks(vs, b, mapBulk)
  {
    assert vs == vs[..start] + vs[start..];
    BulksDropTail(vs[..start], vs[start..], b, |records|, mapBulk);
  }

  /** `sort(query, bulkMapper, resultSerializer)` after the reply has been
      fetched and decoded into `values` (None for a null reply). A null or
      empty reply gives the empty list; with no GET pattern the capacity
      computation divides by zero; otherwise the records are those of
      `Bulks`, whose count and records `BulksCount` and `BulksAt`
      state. */
  method SortBulk<S, T>(query: SortQuery, values: Option<seq<S>>, mapBulk: seq<S> -> T)
    returns (r: Result<seq<T>>)
    ensures values.None? || values.value == [] ==> r == Success([])
    ensures values.Some? && values.value != [] && query.getPattern == [] ==> r == Failure(Arithmetic)
    ensures values.Some? && values.value != [] && query.getPattern != [] ==>
      var vs, b := values.value, |query.getPattern|;
      r == Success(Bulks(vs, b, mapBulk))
  {
    if values.None? || values.value == [] {
      return Success([]);
    }
    var bulkSize := |query.getPattern|;
    if bulkSize == 0 {
      // the initial capacity values.size() / bulkSize + 1
      return Failure(Arithmetic);
    }
    var vs := values.value;
    var result: seq<T> := [];
    var bulk: seq<S> := [];
    var i := 0;
    ghost var start := 0;
    while i < |vs|
      invariant 0 <= start <= i <= |vs|
      invariant start == |result| * bulkSize
      invariant bulk == vs[start..i] && |bulk| < bulkSize
      invariant result == Bulks(vs[..start], bulkSize, mapBulk)
    {
      bulk := bulk + [vs[i]];
      if |bulk| == bulkSize {
        GroupComplete(vs, start, bulk, bulkSize, result, mapBulk);
        // a fresh list for the next group
        result := result + [mapBulk(bulk)];
        bulk := [];
        start := i + 1;
      }
      i := i + 1;
    }
    TailDropped(vs, start, bulkSize, result, mapBulk);
    return Success(result);
  }
}

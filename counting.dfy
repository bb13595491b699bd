/**
 * Counting detections by name. Both pipeline variants reduce the detections of
 * one frame to "how many of each name". The newer one uses
 * `value_counts().to_dict()`, modelled as the map `ValueCounts` (the dict's
 * order, by descending count, is not kept: the record is inserted by key).
 * The older one uses a sorted `groupby(...).count()`, modelled as the tally
 * `TallyOf`, kept in ascending name order as pandas' groupby produces it.
 * `ValueCountsAgree` ties the two together.
 */
module Counting {

  /** How many times `n` occurs in `s`. */
  function Occurrences(s: seq<string>, n: string): nat
  {
    if s == [] then 0 else (if s[0] == n then 1 else 0) + Occurrences(s[1..], n)
  }

  lemma {:induction false} OccurrencesPositive(s: seq<string>)
    ensures forall n :: Occurrences(s, n) > 0 <==> n in s
  {
    if s != [] {
      OccurrencesPositive(s[1..]);
      forall n ensures Occurrences(s, n) > 0 <==> n in s {
        assert n in s <==> n == s[0] || n in s[1..];
      }
    }
  }

  /** Python's `<` on str: lexicographic on code points, a proper prefix first. */
  predicate Before(a: string, b: string)
  {
    |b| > 0 && (|a| == 0 || a[0] < b[0] || (a[0] == b[0] && Before(a[1..], b[1..])))
  }

  lemma {:induction false} BeforeIrreflexive(a: string)
    ensures !Before(a, a)
  {
    if |a| > 0 { BeforeIrreflexive(a[1..]); }
  }

  lemma {:induction false} BeforeTransitive(a: string, b: string, c: string)
    requires Before(a, b) && Before(b, c)
    ensures Before(a, c)
  {
    if |a| > 0 && a[0] == b[0] && b[0] == c[0] {
      BeforeTransitive(a[1..], b[1..], c[1..]);
    }
  }

  lemma {:induction false} BeforeTotal(a: string, b: string)
    requires a != b
    ensures Before(a, b) || Before(b, a)
  {
    if |a| > 0 && |b| > 0 && a[0] == b[0] {
      assert a == [a[0]] + a[1..] && b == [b[0]] + b[1..];
      BeforeTotal(a[1..], b[1..]);
    }
  }

  /** One group of equal names and the size of the group. */
  datatype Tally = Tally(name: string, count: nat)

  /** Groups in strictly ascending name order, hence with distinct names. */
  predicate Ascending(t: seq<Tally>)
  {
    forall i, j :: 0 <= i < j < |t| ==> Before(t[i].name, t[j].name)
  }

  /** Every group of `t` sorts after `b`. */
  predicate AllAfter(b: string, t: seq<Tally>)
  {
    forall i :: 0 <= i < |t| ==> Before(b, t[i].name)
  }

  predicate Positive(t: seq<Tally>)
  {
    forall i :: 0 <= i < |t| ==> t[i].count > 0
  }

  /** The size recorded for `n`; zero when `t` has no group for it. */
  function CountOf(t: seq<Tally>, n: string): nat
  {
    if t == [] then 0 else if t[0].name == n then t[0].count else CountOf(t[1..], n)
  }

  /** The sum of the group sizes. */
  function Sum(t: seq<Tally>): nat
  {
    if t == [] then 0 else t[0].count + Sum(t[1..])
  }

  lemma {:induction false} CountOfAbsent(t: seq<Tally>, n: string)
    requires AllAfter(n, t)
    ensures CountOf(t, n) == 0
  {
    if t != [] {
      BeforeIrreflexive(n);
      CountOfAbsent(t[1..], n);
    }
  }

  lemma {:induction false} AllAfterFirst(b: string, t: seq<Tally>)
    requires Ascending(t) && |t| > 0 && Before(b, t[0].name)
    ensures AllAfter(b, t)
  {
    forall i | 0 <= i < |t| ensures Before(b, t[i].name) {
      if i > 0 { BeforeTransitive(b, t[0].name, t[i].name); }
    }
  }

  /** A group placed before groups that all sort after it keeps the order. */
  lemma ConsAscending(x: Tally, t: seq<Tally>)
    requires Ascending(t) && AllAfter(x.name, t)
    ensures Ascending([x] + t)
  {
    var r := [x] + t;
    forall i, j | 0 <= i < j < |r| ensures Before(r[i].name, r[j].name) {
      if i > 0 { assert r[i] == t[i - 1] && r[j] == t[j - 1]; }
      else { assert r[j] == t[j - 1]; }
    }
  }

  /** The groups after counting one more name: its group grows, or a new one is inserted in order. */
  function Add(t: seq<Tally>, n: string): seq<Tally>
  {
    if t == [] then [Tally(n, 1)]
    else if t[0].name == n then [Tally(n, t[0].count + 1)] + t[1..]
    else if Before(n, t[0].name) then [Tally(n, 1)] + t
    else [t[0]] + Add(t[1..], n)
  }

  /** Counting one more name keeps the order and adds one to its group, and only to it. */
  lemma {:induction false} AddCounts(t: seq<Tally>, n: string)
    requires Ascending(t)
    ensures var r := Add(t, n);
      && Ascending(r)
      && |r| > 0 && (r[0].name == n || (t != [] && r[0].name == t[0].name))
      && (forall m :: CountOf(r, m) == CountOf(t, m) + (if m == n then 1 else 0))
      && Sum(r) == Sum(t) + 1
      && (Positive(t) ==> Positive(r))
  {
    if t == [] {
    } else if t[0].name == n {
    } else if Before(n, t[0].name) {
      AllAfterFirst(n, t);
      CountOfAbsent(t, n);
      ConsAscending(Tally(n, 1), t);
    } else {
      BeforeTotal(n, t[0].name);
      AddCounts(t[1..], n);
      var rest := Add(t[1..], n);
      assert Before(t[0].name, rest[0].name);
      AllAfterFirst(t[0].name, rest);
      ConsAscending(t[0], rest);
    }
  }

  /** The groups of equal names of `s`, ascending by name, with their sizes. */
  function TallyOf(s: seq<string>): (t: seq<Tally>)
    ensures Ascending(t) && Positive(t)
    ensures forall n :: CountOf(t, n) == Occurrences(s, n)
    ensures Sum(t) == |s|
  {
    if s == [] then []
    else
      AddCounts(TallyOf(s[1..]), s[0]);
      Add(TallyOf(s[1..]), s[0])
  }

  lemma {:induction false} CountOfAt(t: seq<Tally>, i: nat)
    requires Ascending(t) && i < |t|
    ensures CountOf(t, t[i].name) == t[i].count
  {
    if i > 0 {
      BeforeIrreflexive(t[i].name);
      CountOfAt(t[1..], i - 1);
    }
  }

  lemma {:induction false} CountOfPositive(t: seq<Tally>, n: string)
    requires CountOf(t, n) > 0
    ensures exists i :: 0 <= i < |t| && t[i].name == n
  {
    if t[0].name != n {
      CountOfPositive(t[1..], n);
      var i :| 0 <= i < |t[1..]| && t[1..][i].name == n;
      assert t[i + 1].name == n;
    }
  }

  /**
   * The tally has exactly one group per distinct name of `s`, and each
   * group's size is the number of times its name occurs.
   */
  lemma GroupsAreTheDistinctNames(s: seq<string>, n: string)
    ensures n in s <==> exists i :: 0 <= i < |TallyOf(s)| && TallyOf(s)[i].name == n
    ensures forall i :: 0 <= i < |TallyOf(s)| ==> TallyOf(s)[i].count == Occurrences(s, TallyOf(s)[i].name)
  {
    var t := TallyOf(s);
    OccurrencesPositive(s);
    if n in s {
      CountOfPositive(t, n);
    }
    forall i | 0 <= i < |t| ensures t[i].count == Occurrences(s, t[i].name) {
      CountOfAt(t, i);
    }
  }

  /** `value_counts().to_dict()`: each distinct name mapped to its number of occurrences. */
  function ValueCounts(s: seq<string>): (m: map<string, nat>)
    ensures forall n :: n in m <==> n in s
    ensures forall n :: n in m ==> m[n] == Occurrences(s, n) && m[n] > 0
  {
    OccurrencesPositive(s);
    map n | n in s :: Occurrences(s, n)
  }

  /**
   * The value counts and the sorted tally agree entry by entry, so the
   * counts of the dictionary add up to the number of names.
   */
  lemma ValueCountsAgree(s: seq<string>)
    ensures forall i :: 0 <= i < |TallyOf(s)| ==>
      TallyOf(s)[i].name in ValueCounts(s) && ValueCounts(s)[TallyOf(s)[i].name] == TallyOf(s)[i].count
    ensures forall n :: n in ValueCounts(s) ==> exists i :: 0 <= i < |TallyOf(s)| && TallyOf(s)[i].name == n
    ensures Sum(TallyOf(s)) == |s|
  {
    var t := TallyOf(s);
    OccurrencesPositive(s);
    forall i | 0 <= i < |t|
      ensures t[i].name in ValueCounts(s) && ValueCounts(s)[t[i].name] == t[i].count
    {
      CountOfAt(t, i);
      assert Occurrences(s, t[i].name) == t[i].count > 0;
      assert t[i].name in s;
    }
    forall n | n in ValueCounts(s) ensures exists i :: 0 <= i < |t| && t[i].name == n {
      GroupsAreTheDistinctNames(s, n);
    }
  }
}

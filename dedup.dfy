/**
 * The de-duplication of the configured `secret-ids` lines: `[...new Set(lines)]`.
 * A JavaScript `Set` built from an array inserts the elements in order and ignores
 * those already present, so spreading it back gives each distinct line once, in
 * the order of its first occurrence.
 */
module SecretIdInputs {

  /** No element occurs twice. */
  predicate Distinct(s: seq<string>) {
    forall i, j :: 0 <= i < j < |s| ==> s[i] != s[j]
  }

  /** The position of the first occurrence of `x` in `xs`. */
  function FirstIndex(xs: seq<string>, x: string): (k: nat)
    requires x in xs
    ensures k < |xs| && xs[k] == x
    ensures forall j :: 0 <= j < k ==> xs[j] != x
  {
    if xs[0] == x then 0 else 1 + FirstIndex(xs[1..], x)
  }

  /** Every element of `s` is drawn from `xs`, and `s` lists them in the order in
      which they first occur in `xs`. */
  predicate InFirstOccurrenceOrder(xs: seq<string>, s: seq<string>) {
    && (forall i :: 0 <= i < |s| ==> s[i] in xs)
    && (forall i, j :: 0 <= i < j < |s| ==> FirstIndex(xs, s[i]) < FirstIndex(xs, s[j]))
  }

  /** `[...new Set(xs)]`: `xs` inserted element by element into an insertion-ordered set. */
  function Dedup(xs: seq<string>): (r: seq<string>)
    ensures Distinct(r)
    ensures forall x :: x in r <==> x in xs
    ensures InFirstOccurrenceOrder(xs, r)
  {
    if xs == [] then []
    else
      var prefix, last := xs[..|xs| - 1], xs[|xs| - 1];
      assert xs == prefix + [last];
      var d := Dedup(prefix);
      InsertKeepsOrder(prefix, last, d);
      if last in d then d else d + [last]
  }

  /** One insertion into the set: the list for `prefix` extended by `last` unless present. */
  lemma InsertKeepsOrder(prefix: seq<string>, last: string, d: seq<string>)
    requires Distinct(d)
    requires forall x :: x in d <==> x in prefix
    requires InFirstOccurrenceOrder(prefix, d)
    ensures var r := if last in d then d else d + [last];
      && Distinct(r)
      && (forall x :: x in r <==> x in prefix + [last])
      && InFirstOccurrenceOrder(prefix + [last], r)
  {
    var xs := prefix + [last];
    FirstIndexOfPrefix(prefix, last);
    forall i | 0 <= i < |d|
      ensures d[i] in xs && FirstIndex(xs, d[i]) == FirstIndex(prefix, d[i])
    {
      assert d[i] in prefix;
    }
    if last !in d {
      var r := d + [last];
      forall i, j | 0 <= i < j < |r|
        ensures FirstIndex(xs, r[i]) < FirstIndex(xs, r[j])
      {
        if j == |d| {
          assert r[i] in prefix;
        } else {
          assert r[i] == d[i] && r[j] == d[j];
        }
      }
    }
  }

  /** Appending an element keeps the first occurrences of the elements already present,
      and a new element first occurs at the end. */
  lemma FirstIndexOfPrefix(prefix: seq<string>, last: string)
    ensures forall x :: x in prefix ==> FirstIndex(prefix + [last], x) == FirstIndex(prefix, x)
    ensures last !in prefix ==> FirstIndex(prefix + [last], last) == |prefix|
  {
    var xs := prefix + [last];
    forall x | x in prefix
      ensures FirstIndex(xs, x) == FirstIndex(prefix, x)
    {
      var k, m := FirstIndex(xs, x), FirstIndex(prefix, x);
      assert xs[m] == x;
      assert prefix[k] == x;
    }
  }

  /** The head of a list in first-occurrence order is the element of the list that
      occurs first in `xs`. */
  lemma HeadOccursFirst(xs: seq<string>, s: seq<string>, x: string)
    requires InFirstOccurrenceOrder(xs, s)
    requires x in s
    ensures x in xs && FirstIndex(xs, s[0]) <= FirstIndex(xs, x)
  {
  }

  /** A list in first-occurrence order has no repeats: its tail holds every element but the head. */
  lemma TailDropsOnlyHead(xs: seq<string>, s: seq<string>)
    requires InFirstOccurrenceOrder(xs, s)
    requires s != []
    ensures InFirstOccurrenceOrder(xs, s[1..])
    ensures forall x :: x in s[1..] <==> x in s && x != s[0]
  {
  }

  /** Two lists of the same elements of `xs`, both in first-occurrence order, are equal. */
  lemma {:induction false} FirstOccurrenceOrderIsUnique(xs: seq<string>, a: seq<string>, b: seq<string>)
    requires forall x :: x in a <==> x in b
    requires InFirstOccurrenceOrder(xs, a) && InFirstOccurrenceOrder(xs, b)
    ensures a == b
  {
    assert a == [] <==> b == [] by {
      if a != [] {
        assert a[0] in b;
      }
      if b != [] {
        assert b[0] in a;
      }
    }
    if a != [] {
      HeadOccursFirst(xs, a, b[0]);
      HeadOccursFirst(xs, b, a[0]);
      assert a[0] == xs[FirstIndex(xs, a[0])] == xs[FirstIndex(xs, b[0])] == b[0];
      TailDropsOnlyHead(xs, a);
      TailDropsOnlyHead(xs, b);
      FirstOccurrenceOrderIsUnique(xs, a[1..], b[1..]);
      assert a == [a[0]] + a[1..] && b == [b[0]] + b[1..];
    }
  }

  /** The de-duplicated list is the only list that holds exactly the elements of `xs`
      in the order of their first occurrence. */
  lemma DedupIsUnique(xs: seq<string>, s: seq<string>)
    requires forall x :: x in s <==> x in xs
    requires InFirstOccurrenceOrder(xs, s)
    ensures s == Dedup(xs)
  {
    var d := Dedup(xs);
    FirstOccurrenceOrderIsUnique(xs, s, d);
  }

  /** De-duplicating twice changes nothing: a list without repeats is its own `Set` spread. */
  lemma DedupIdempotent(xs: seq<string>)
    ensures Dedup(Dedup(xs)) == Dedup(xs)
  {
    var d := Dedup(xs);
    var dd := Dedup(d);
    forall i | 0 <= i < |d|
      ensures FirstIndex(d, d[i]) == i
    {
    }
    FirstOccurrenceOrderIsUnique(d, d, dd);
  }
}

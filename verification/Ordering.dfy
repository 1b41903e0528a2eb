/** Byte-wise lexicographic order on texts, and the strictly increasing listing of a set of them. */
module Ordering {
  import opened ConditionSyntax

  predicate Less(a: Text, b: Text) {
    b != [] && (a == [] || a[0] < b[0] || (a[0] == b[0] && Less(a[1..], b[1..])))
  }

  lemma {:induction false} LessTotal(a: Text, b: Text)
    ensures Less(a, b) || a == b || Less(b, a)
    ensures !(Less(a, b) && Less(b, a)) && !Less(a, a)
    decreases |a|
  {
    if a == [] {
    } else {
      LessTotal(a[1..], a[1..]);
      if b != [] && a[0] == b[0] {
        LessTotal(a[1..], b[1..]);
        assert a == [a[0]] + a[1..] && b == [b[0]] + b[1..];
      }
    }
  }

  lemma {:induction false} LessTransitive(a: Text, b: Text, c: Text)
    requires Less(a, b) && Less(b, c)
    ensures Less(a, c)
    decreases |a|
  {
    if a != [] && a[0] == b[0] && b[0] == c[0] {
      LessTransitive(a[1..], b[1..], c[1..]);
    }
  }

  predicate Increasing(s: seq<Text>) {
    forall i, j :: 0 <= i < j < |s| ==> Less(s[i], s[j])
  }

  function Elements<T>(s: seq<T>): set<T> { set x | x in s }

  /** The elements of one kind, in their order. */
  function Select<T>(xs: seq<T>, first: T -> bool, wanted: bool): seq<T> {
    if xs == [] then []
    else
      var last := xs[|xs| - 1];
      Select(xs[..|xs| - 1], first, wanted) + (if first(last) == wanted then [last] else [])
  }

  /** Stably sorted by a key that says what comes first. */
  function SortedFirst<T>(xs: seq<T>, first: T -> bool): seq<T> { Select(xs, first, true) + Select(xs, first, false) }

  lemma IncreasingInFront(x: Text, s: seq<Text>)
    requires Increasing(s) && (s != [] ==> Less(x, s[0]))
    ensures Increasing([x] + s)
  {
    forall j | 0 < j < |s| ensures Less(x, s[j]) { LessTransitive(x, s[0], s[j]); }
  }

  lemma IncreasingBehind(x: Text, s: seq<Text>, rest: seq<Text>)
    requires s != [] && Increasing(s) && Less(s[0], x) && Increasing(rest)
    requires Elements(rest) == Elements(s[1..]) + {x}
    ensures Increasing([s[0]] + rest)
  {
    forall j | 0 <= j < |rest| ensures Less(s[0], rest[j]) {
      assert rest[j] in Elements(rest);
      assert rest[j] == x || rest[j] in s[1..];
    }
  }

  lemma ElementsCons<T>(x: T, s: seq<T>)
    ensures Elements([x] + s) == {x} + Elements(s)
  {
  }

  function Insert(x: Text, s: seq<Text>): (r: seq<Text>)
    requires Increasing(s)
    ensures Increasing(r) && Elements(r) == Elements(s) + {x}
    decreases |s|
  {
    LessTotal(x, x);
    if s == [] then [x]
    else if x == s[0] then s
    else if Less(x, s[0]) then
      IncreasingInFront(x, s);
      ElementsCons(x, s);
      [x] + s
    else
      LessTotal(x, s[0]);
      var rest := Insert(x, s[1..]);
      assert s == [s[0]] + s[1..];
      IncreasingBehind(x, s, rest);
      ElementsCons(s[0], rest);
      ElementsCons(s[0], s[1..]);
      [s[0]] + rest
  }

  lemma SameMembers<T>(a: seq<T>, b: seq<T>)
    requires Elements(a) == Elements(b)
    ensures forall x :: x in a <==> x in b
  {
    forall x ensures x in a <==> x in b {
      assert x in Elements(a) <==> x in Elements(b);
    }
  }

  /** `sort` followed by `dedup`. */
  function SortDedup(s: seq<Text>): (r: seq<Text>)
    ensures Increasing(r) && Elements(r) == Elements(s)
  {
    if s == [] then []
    else
      assert s == [s[0]] + s[1..];
      assert Elements(s) == {s[0]} + Elements(s[1..]);
      Insert(s[0], SortDedup(s[1..]))
  }

  /** An increasing listing is determined by its elements. */
  lemma {:induction false} IncreasingUnique(a: seq<Text>, b: seq<Text>)
    requires Increasing(a) && Increasing(b) && Elements(a) == Elements(b)
    ensures a == b
    decreases |a|
  {
    if b != [] { assert b[0] in Elements(b); }
    if a == [] {
    } else {
      assert a[0] in Elements(b);
      assert b != [] && b[0] in Elements(a);
      LessTotal(a[0], b[0]);
      assert a == [a[0]] + a[1..] && b == [b[0]] + b[1..];
      assert a[0] == b[0];
      TailElements(a);
      TailElements(b);
      IncreasingUnique(a[1..], b[1..]);
    }
  }

  lemma TailElements(a: seq<Text>)
    requires a != [] && Increasing(a)
    ensures Elements(a[1..]) == Elements(a) - {a[0]}
  {
    forall i | 0 < i < |a| ensures a[i] != a[0] { LessTotal(a[0], a[i]); }
    forall x | x in Elements(a) - {a[0]} ensures x in Elements(a[1..]) {
      var i :| 0 <= i < |a| && a[i] == x;
      assert a[1..][i - 1] == x;
    }
  }
}

/** Splitting strings on a one-character delimiter, and joining them back. */
module Text {
  import opened Wrappers

  /** `s` cut at the first occurrence of `d`: the part before it and, when there is
      one, everything after it (which may itself contain `d`). */
  function SplitFirst(s: string, d: char): (r: (string, Option<string>))
    ensures d !in r.0
    ensures r.1.None? ==> r.0 == s
    ensures r.1.Some? ==> s == r.0 + [d] + r.1.value
    decreases |s|
  {
    if s == [] then ([], None)
    else if s[0] == d then ([], Some(s[1..]))
    else
      var (head, tail) := SplitFirst(s[1..], d);
      ([s[0]] + head, tail)
  }

  /** The result of SplitFirst is fixed by its contract: a prefix free of `d`
      followed by `d` is cut exactly there. */
  lemma {:induction false} SplitFirstAt(h: string, d: char, t: string)
    requires d !in h
    ensures SplitFirst(h + [d] + t, d) == (h, Some(t))
    decreases |h|
  {
    if h != [] {
      var s := h + [d] + t;
      assert s[0] == h[0] && h[0] != d;
      assert s[1..] == h[1..] + [d] + t;
      SplitFirstAt(h[1..], d, t);
      assert [h[0]] + h[1..] == h;
    }
  }

  /** A string free of `d` is not cut at all. */
  lemma SplitFirstNone(s: string, d: char)
    requires d !in s
    ensures SplitFirst(s, d) == (s, None)
  {
  }

  /** The parts, joined with `d` between consecutive ones. */
  function Join(parts: seq<string>, d: char): (s: string)
    requires |parts| >= 1
    decreases |parts|
  {
    if |parts| == 1 then parts[0] else parts[0] + [d] + Join(parts[1..], d)
  }

  /** Every maximal `d`-free piece of `s`, in order; an empty string gives one empty
      part, and each delimiter adds a part even when the part is empty. */
  function Split(s: string, d: char): (parts: seq<string>)
    ensures |parts| >= 1
    ensures Join(parts, d) == s
    ensures forall i :: 0 <= i < |parts| ==> d !in parts[i]
    decreases |s|
  {
    var (head, rest) := SplitFirst(s, d);
    match rest
    case None => [head]
    case Some(tail) =>
      var parts := [head] + Split(tail, d);
      assert parts[1..] == Split(tail, d);
      parts
  }

  /** The first part of Split is what SplitFirst cuts off. */
  lemma SplitHead(s: string, d: char)
    ensures Split(s, d)[0] == SplitFirst(s, d).0
  {
  }

  /** Split is the inverse of Join on parts that do not contain the delimiter. */
  lemma {:induction false} SplitJoin(parts: seq<string>, d: char)
    requires |parts| >= 1
    requires forall i :: 0 <= i < |parts| ==> d !in parts[i]
    ensures Split(Join(parts, d), d) == parts
    decreases |parts|
  {
    if |parts| == 1 {
      SplitFirstNone(parts[0], d);
    } else {
      var tail := parts[1..];
      assert forall i :: 0 <= i < |tail| ==> d !in tail[i] by {
        forall i | 0 <= i < |tail| ensures d !in tail[i] { assert tail[i] == parts[i + 1]; }
      }
      SplitFirstAt(parts[0], d, Join(tail, d));
      SplitJoin(tail, d);
      assert parts == [parts[0]] + tail;
    }
  }

  /** A character other than the delimiter occurs in the joined string exactly when
      it occurs in one of the parts. */
  lemma {:induction false} NotInJoin(parts: seq<string>, d: char, c: char)
    requires |parts| >= 1 && c != d
    ensures c !in Join(parts, d) <==> forall i :: 0 <= i < |parts| ==> c !in parts[i]
    decreases |parts|
  {
    if |parts| > 1 {
      NotInJoin(parts[1..], d, c);
      assert forall i :: 1 <= i < |parts| ==> parts[i] == parts[1..][i - 1];
      if c !in Join(parts, d) {
        forall i | 0 <= i < |parts| ensures c !in parts[i] {
          if i > 0 { assert parts[i] == parts[1..][i - 1]; }
        }
      }
    }
  }

  /** A line that holds nothing but white space (what Java's `trim` removes: code
      points up to and including the space). */
  predicate IsBlank(line: string) {
    forall i :: 0 <= i < |line| ==> line[i] <= ' '
  }
}

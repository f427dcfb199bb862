/** Joining strings with a separator, as Python's `str.join` does, and the split that undoes it. */
module Text {

  /** `[sep].join(parts)`: the parts in order with one separator between neighbours. */
  function Join(sep: char, parts: seq<string>): (s: string)
    ensures |parts| >= 1 ==> parts[0] <= s
    ensures |parts| >= 1 ==> |s| == TotalLength(parts) + |parts| - 1
  {
    if |parts| == 0 then ""
    else if |parts| == 1 then parts[0]
    else parts[0] + [sep] + Join(sep, parts[1..])
  }

  /** Sum of the lengths of the parts. */
  function TotalLength(parts: seq<string>): nat {
    if |parts| == 0 then 0 else |parts[0]| + TotalLength(parts[1..])
  }

  /** Cuts `s` at every occurrence of `sep`; there is always at least one piece. */
  function Split(sep: char, s: string): (pieces: seq<string>)
    ensures |pieces| >= 1
    ensures forall i :: 0 <= i < |pieces| ==> sep !in pieces[i]
  {
    if |s| == 0 then [""]
    else if s[0] == sep then [""] + Split(sep, s[1..])
    else
      var rest := Split(sep, s[1..]);
      [[s[0]] + rest[0]] + rest[1..]
  }

  /** A piece free of the separator splits to itself. */
  lemma {:induction false} SplitPlain(sep: char, a: string)
    requires sep !in a
    ensures Split(sep, a) == [a]
  {
    if |a| > 0 {
      SplitPlain(sep, a[1..]);
      assert [a[0]] + a[1..] == a;
    }
  }

  /** Splitting `a + sep + b` yields `a` followed by the pieces of `b`. */
  lemma {:induction false} SplitAtSeparator(sep: char, a: string, b: string)
    requires sep !in a
    ensures Split(sep, a + [sep] + b) == [a] + Split(sep, b)
  {
    if |a| == 0 {
      assert a + [sep] + b == [sep] + b;
      assert ([sep] + b)[1..] == b;
    } else {
      assert (a + [sep] + b)[1..] == a[1..] + [sep] + b;
      SplitAtSeparator(sep, a[1..], b);
      assert [a[0]] + a[1..] == a;
    }
  }

  /**
   * The joined text identifies its parts: when no part contains the
   * separator, splitting the join gives the parts back.
   */
  lemma {:induction false} SplitJoin(sep: char, parts: seq<string>)
    requires |parts| >= 1
    requires forall i :: 0 <= i < |parts| ==> sep !in parts[i]
    ensures Split(sep, Join(sep, parts)) == parts
  {
    if |parts| == 1 {
      SplitPlain(sep, parts[0]);
    } else {
      SplitJoin(sep, parts[1..]);
      SplitAtSeparator(sep, parts[0], Join(sep, parts[1..]));
      assert [parts[0]] + parts[1..] == parts;
    }
  }
}

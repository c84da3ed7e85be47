/** Ruby's `Array#join(sep)` on strings, with the lemmas that pin down where
    each element and each separator lands in the result. */
module Text {

  /** `xs.join(sep)`: the elements in order, `sep` between neighbours. */
  function Join(xs: seq<string>, sep: string): (r: string)
    ensures xs == [] ==> r == ""
    ensures |xs| == 1 ==> r == xs[0]
    decreases |xs|
  {
    if |xs| == 0 then ""
    else if |xs| == 1 then xs[0]
    else xs[0] + sep + Join(xs[1..], sep)
  }

  /** Total length of the elements. */
  function TotalLength(xs: seq<string>): nat
    decreases |xs|
  {
    if xs == [] then 0 else |xs[0]| + TotalLength(xs[1..])
  }

  /** Where element `i` starts in `Join(xs, sep)`: after every earlier
      element and one separator per earlier element. */
  function Offset(xs: seq<string>, sep: string, i: nat): nat
    requires i <= |xs|
    decreases i
  {
    if i == 0 then 0 else |xs[0]| + |sep| + Offset(xs[1..], sep, i - 1)
  }

  /** The joined string holds the elements and exactly `|xs| - 1`
      separators, and nothing else. */
  lemma {:induction false} JoinLength(xs: seq<string>, sep: string)
    requires xs != []
    ensures |Join(xs, sep)| == TotalLength(xs) + (|xs| - 1) * |sep|
    decreases |xs|
  {
    if |xs| > 1 {
      JoinLength(xs[1..], sep);
      assert TotalLength(xs) == |xs[0]| + TotalLength(xs[1..]);
    }
  }

  /** Element `i` sits at `Offset(xs, sep, i)`, in input order. */
  lemma {:induction false} JoinElementAt(xs: seq<string>, sep: string, i: nat)
    requires i < |xs|
    ensures Offset(xs, sep, i) + |xs[i]| <= |Join(xs, sep)|
    ensures Join(xs, sep)[Offset(xs, sep, i)..Offset(xs, sep, i) + |xs[i]|] == xs[i]
    decreases i
  {
    if i == 0 {
      JoinFront(xs, sep);
    } else {
      JoinElementAt(xs[1..], sep, i - 1);
      JoinElementStep(xs, sep, i);
    }
  }

  /** The first element opens the joined string. */
  lemma JoinFront(xs: seq<string>, sep: string)
    requires xs != []
    ensures Offset(xs, sep, 0) == 0
    ensures |xs[0]| <= |Join(xs, sep)| && Join(xs, sep)[0..|xs[0]|] == xs[0]
  {
    if |xs| == 1 {
      assert Join(xs, sep) == xs[0];
      assert xs[0][0..|xs[0]|] == xs[0];
    } else {
      SliceAt(Join(xs, sep), xs[0], sep + Join(xs[1..], sep));
    }
  }

  /** Element `i > 0` sits where it sits among `xs[1..]`, shifted past the
      first element and its separator. */
  lemma JoinElementStep(xs: seq<string>, sep: string, i: nat)
    requires 0 < i < |xs|
    requires Offset(xs[1..], sep, i - 1) + |xs[i]| <= |Join(xs[1..], sep)|
    requires Join(xs[1..], sep)[Offset(xs[1..], sep, i - 1)..Offset(xs[1..], sep, i - 1) + |xs[i]|] == xs[i]
    ensures Offset(xs, sep, i) + |xs[i]| <= |Join(xs, sep)|
    ensures Join(xs, sep)[Offset(xs, sep, i)..Offset(xs, sep, i) + |xs[i]|] == xs[i]
  {
    var o := Offset(xs[1..], sep, i - 1);
    JoinUnfold(xs, sep);
    ShiftedSlice(Join(xs, sep), xs[0] + sep, Join(xs[1..], sep), o, o + |xs[i]|);
  }

  /** The separator follows element `i` whenever another element does. */
  lemma {:induction false} JoinSeparatorAt(xs: seq<string>, sep: string, i: nat)
    requires i + 1 < |xs|
    ensures Offset(xs, sep, i) + |xs[i]| + |sep| <= |Join(xs, sep)|
    ensures Join(xs, sep)[Offset(xs, sep, i) + |xs[i]|..Offset(xs, sep, i) + |xs[i]| + |sep|] == sep
    decreases i
  {
    if i == 0 {
      JoinFrontSeparator(xs, sep);
    } else {
      JoinSeparatorAt(xs[1..], sep, i - 1);
      JoinSeparatorStep(xs, sep, i);
    }
  }

  /** The first separator directly follows the first element. */
  lemma JoinFrontSeparator(xs: seq<string>, sep: string)
    requires 1 < |xs|
    ensures Offset(xs, sep, 0) == 0
    ensures |xs[0]| + |sep| <= |Join(xs, sep)| && Join(xs, sep)[|xs[0]|..|xs[0]| + |sep|] == sep
  {
    var rest := Join(xs[1..], sep);
    assert Join(xs, sep) == xs[0] + (sep + rest);
    ShiftedSlice(Join(xs, sep), xs[0], sep + rest, 0, |sep|);
    SliceAt(sep + rest, sep, rest);
  }

  /** The separator after element `i > 0` sits where it sits among
      `xs[1..]`, shifted past the first element and its separator. */
  lemma JoinSeparatorStep(xs: seq<string>, sep: string, i: nat)
    requires 0 < i && i + 1 < |xs|
    requires Offset(xs[1..], sep, i - 1) + |xs[i]| + |sep| <= |Join(xs[1..], sep)|
    requires Join(xs[1..], sep)[Offset(xs[1..], sep, i - 1) + |xs[i]|..Offset(xs[1..], sep, i - 1) + |xs[i]| + |sep|] == sep
    ensures Offset(xs, sep, i) + |xs[i]| + |sep| <= |Join(xs, sep)|
    ensures Join(xs, sep)[Offset(xs, sep, i) + |xs[i]|..Offset(xs, sep, i) + |xs[i]| + |sep|] == sep
  {
    var o := Offset(xs[1..], sep, i - 1) + |xs[i]|;
    JoinUnfold(xs, sep);
    ShiftedSlice(Join(xs, sep), xs[0] + sep, Join(xs[1..], sep), o, o + |sep|);
  }

  /** A join of two or more elements is the first, a separator, and the
      join of the rest. */
  lemma JoinUnfold(xs: seq<string>, sep: string)
    requires 1 < |xs|
    ensures Join(xs, sep) == (xs[0] + sep) + Join(xs[1..], sep)
    ensures forall i | 0 < i <= |xs| :: Offset(xs, sep, i) == |xs[0] + sep| + Offset(xs[1..], sep, i - 1)
  {
  }

  /** `j`, when it is `a + b`, starts with `a`. */
  lemma SliceAt(j: string, a: string, b: string)
    requires j == a + b
    ensures |j| == |a| + |b|
    ensures j[..|a|] == a && j[0..|a|] == a
  {
  }

  /** A slice that lies after `a` in `j == a + b` is a slice of `b`. */
  lemma ShiftedSlice(j: string, a: string, b: string, from: nat, to: nat)
    requires j == a + b
    requires from <= to <= |b|
    ensures |a| + to <= |j|
    ensures j[|a| + from..|a| + to] == b[from..to]
  {
  }

  /** The next element starts one separator after the end of this one. */
  lemma {:induction false} OffsetNext(xs: seq<string>, sep: string, i: nat)
    requires i + 1 <= |xs|
    ensures Offset(xs, sep, i + 1) == Offset(xs, sep, i) + |xs[i]| + |sep|
    decreases i
  {
    if i > 0 {
      OffsetNext(xs[1..], sep, i - 1);
      assert xs[1..][i - 1] == xs[i];
    }
  }
}

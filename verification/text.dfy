/**
 The two Python string/sequence operations the text-between preprocessor is
 built from: slicing a token list `tokens[start:end]` and `" ".join(...)`.
 `str.split(" ")`, Python's inverse of that join, is defined alongside so
 that the join can be checked against it.
 */
module Text {

  const Space: char := ' '

  /** Python's normalisation of one slice bound (step 1): a negative bound
      counts from the end, and the result is clamped into [0, n]. */
  function SliceBound(i: int, n: nat): (b: nat)
    ensures b <= n
    ensures 0 <= i <= n ==> b == i
    ensures i > n ==> b == n
    ensures i < 0 && 0 <= i + n ==> b == i + n
    ensures i + n < 0 ==> b == 0
  {
    if i < 0 then (if i + n < 0 then 0 else i + n)
    else if i > n then n
    else i
  }

  /** Python's `s[start:end]`: the elements whose positions lie between the two
      normalised bounds, or nothing when the bounds cross. */
  function PySlice<T>(s: seq<T>, start: int, end: int): (r: seq<T>)
    ensures |r| <= |s|
    ensures SliceBound(start, |s|) >= SliceBound(end, |s|) ==> r == []
    ensures SliceBound(start, |s|) < SliceBound(end, |s|) ==>
              |r| == SliceBound(end, |s|) - SliceBound(start, |s|)
    ensures forall k :: 0 <= k < |r| ==> r[k] == s[SliceBound(start, |s|) + k]
  {
    var a := SliceBound(start, |s|);
    var b := SliceBound(end, |s|);
    if a < b then s[a..b] else []
  }

  /** With non-negative bounds a slice never wraps: it is the clamped
      sub-sequence, and it is empty as soon as start reaches end. */
  lemma PySliceNonNegative<T>(s: seq<T>, start: int, end: int)
    requires 0 <= start && 0 <= end
    ensures start >= end ==> PySlice(s, start, end) == []
    ensures start < end <= |s| ==> PySlice(s, start, end) == s[start..end]
    ensures start <= |s| < end ==> PySlice(s, start, end) == s[start..]
    ensures |s| < start ==> PySlice(s, start, end) == []
  {
  }

  /** Python's `" ".join(ts)`. */
  function Join(ts: seq<string>): (r: string)
    ensures |ts| == 0 ==> r == ""
    ensures |ts| == 1 ==> r == ts[0]
    ensures |ts| >= 1 ==> |r| == TotalLength(ts) + |ts| - 1
    ensures |ts| >= 1 ==> r[..|ts[0]|] == ts[0]
  {
    if |ts| == 0 then ""
    else if |ts| == 1 then ts[0]
    else ts[0] + [Space] + Join(ts[1..])
  }

  /** Sum of the lengths of the tokens. */
  function TotalLength(ts: seq<string>): nat
  {
    if |ts| == 0 then 0 else |ts[0]| + TotalLength(ts[1..])
  }

  /** Number of spaces in a string. */
  function Spaces(s: string): nat
  {
    if |s| == 0 then 0 else (if s[0] == Space then 1 else 0) + Spaces(s[1..])
  }

  /** Python's `s.split(" ")`: the maximal space-free runs, empty ones included,
      so there is always at least one piece and one more piece than spaces. */
  function Split(s: string): (r: seq<string>)
    ensures |r| == Spaces(s) + 1
    ensures forall k :: 0 <= k < |r| ==> Space !in r[k]
  {
    if |s| == 0 then [""]
    else
      var rest := Split(s[1..]);
      if s[0] == Space then [""] + rest
      else [[s[0]] + rest[0]] + rest[1..]
  }

  lemma {:induction false} SpacesAppend(a: string, b: string)
    ensures Spaces(a + b) == Spaces(a) + Spaces(b)
  {
    if |a| == 0 {
      assert a + b == b;
    } else {
      assert (a + b)[1..] == a[1..] + b;
      SpacesAppend(a[1..], b);
    }
  }

  /** The join inserts exactly one space between neighbouring tokens. */
  lemma {:induction false} JoinSpaces(ts: seq<string>)
    requires |ts| >= 1
    requires forall k :: 0 <= k < |ts| ==> Space !in ts[k]
    ensures Spaces(Join(ts)) == |ts| - 1
  {
    NoSpaceCount(ts[0]);
    if |ts| > 1 {
      JoinSpaces(ts[1..]);
      SpacesAppend(ts[0], [Space]);
      SpacesAppend(ts[0] + [Space], Join(ts[1..]));
    }
  }

  lemma {:induction false} NoSpaceCount(t: string)
    requires Space !in t
    ensures Spaces(t) == 0
  {
    if |t| > 0 {
      assert Space !in t[1..] by {
        forall k | 0 <= k < |t[1..]| ensures t[1..][k] != Space {
          assert t[1..][k] == t[k + 1];
        }
      }
      NoSpaceCount(t[1..]);
    }
  }

  /** Splitting a space-free token followed by a space and more text peels that token off. */
  lemma {:induction false} SplitPrefix(t: string, u: string)
    requires Space !in t
    ensures Split(t + [Space] + u) == [t] + Split(u)
  {
    if |t| == 0 {
      assert t + [Space] + u == [Space] + u;
      assert ([Space] + u)[1..] == u;
    } else {
      assert (t + [Space] + u)[1..] == t[1..] + [Space] + u;
      assert Space !in t[1..] by {
        forall k | 0 <= k < |t[1..]| ensures t[1..][k] != Space {
          assert t[1..][k] == t[k + 1];
        }
      }
      SplitPrefix(t[1..], u);
      assert [t[0]] + t[1..] == t;
    }
  }

  /** Splitting a space-free string gives it back as the only piece. */
  lemma {:induction false} SplitNoSpace(t: string)
    requires Space !in t
    ensures Split(t) == [t]
  {
    if |t| > 0 {
      assert Space !in t[1..] by {
        forall k | 0 <= k < |t[1..]| ensures t[1..][k] != Space {
          assert t[1..][k] == t[k + 1];
        }
      }
      SplitNoSpace(t[1..]);
      assert [t[0]] + t[1..] == t;
    }
  }

  /** Round trip one way: splitting the joined text recovers the tokens, as long
      as there is at least one token and none of them contains a space. */
  lemma {:induction false} SplitJoin(ts: seq<string>)
    requires |ts| >= 1
    requires forall k :: 0 <= k < |ts| ==> Space !in ts[k]
    ensures Split(Join(ts)) == ts
  {
    if |ts| == 1 {
      SplitNoSpace(ts[0]);
    } else {
      SplitJoin(ts[1..]);
      SplitPrefix(ts[0], Join(ts[1..]));
      assert [ts[0]] + ts[1..] == ts;
    }
  }

  /** Round trip the other way: joining the pieces of any string with single
      spaces rebuilds the string exactly. */
  lemma {:induction false} JoinSplit(s: string)
    ensures Join(Split(s)) == s
  {
    if |s| > 0 {
      var rest := Split(s[1..]);
      JoinSplit(s[1..]);
      if s[0] == Space {
        assert Split(s) == [""] + rest;
        assert ([""] + rest)[1..] == rest;
        assert Join(Split(s)) == "" + [Space] + Join(rest);
        assert [s[0]] + s[1..] == s;
      } else {
        var head := [s[0]] + rest[0];
        assert Split(s) == [head] + rest[1..];
        if |rest| == 1 {
          assert Join(Split(s)) == head;
          assert Join(rest) == rest[0];
        } else {
          assert ([head] + rest[1..])[1..] == rest[1..];
          assert Join(Split(s)) == head + [Space] + Join(rest[1..]);
          assert Join(rest) == rest[0] + [Space] + Join(rest[1..]);
        }
        assert [s[0]] + s[1..] == s;
      }
    }
  }

  /** An empty join is the empty string only for no tokens or a single empty token. */
  lemma {:induction false} JoinEmpty(ts: seq<string>)
    ensures Join(ts) == "" <==> |ts| == 0 || (|ts| == 1 && ts[0] == "")
  {
    if |ts| >= 2 {
      assert |Join(ts)| == TotalLength(ts) + |ts| - 1;
    }
  }

  /** Joining two non-empty token lists one after the other is joining each and
      putting one space between them. With the zero- and one-token cases of
      Join's contract this fixes the join of every token list, spaces or not. */
  lemma {:induction false} JoinAppend(a: seq<string>, b: seq<string>)
    requires |a| >= 1 && |b| >= 1
    ensures Join(a + b) == Join(a) + [Space] + Join(b)
  {
    if |a| == 1 {
      assert (a + b)[1..] == b;
    } else {
      assert (a + b)[1..] == a[1..] + b;
      JoinAppend(a[1..], b);
    }
  }
}

/**
 * The two string operations of Python that the message merger relies on:
 * the substring test `t in c` and `"\n".join(lines)`.
 * `Split` is the inverse of `Join` used to state that joining loses nothing.
 */
module Strings {

  /** `t` occurs in `c` starting at index `i`. */
  ghost predicate OccursAt(t: string, c: string, i: int)
  {
    0 <= i && i + |t| <= |c| && c[i..i + |t|] == t
  }

  /** Python's `t in c` for two strings: `t` is a contiguous substring of `c`
      (the empty string occurs in every string). */
  function Occurs(t: string, c: string): (r: bool)
    ensures r <==> exists i :: OccursAt(t, c, i)
    decreases |c|
  {
    if |t| > |c| then
      NoOccurrenceInShorter(t, c);
      false
    else if c[..|t|] == t then
      assert OccursAt(t, c, 0);
      true
    else
      OccursShift(t, c);
      Occurs(t, c[1..])
  }

  lemma NoOccurrenceInShorter(t: string, c: string)
    requires |t| > |c|
    ensures !exists i :: OccursAt(t, c, i)
  {
  }

  /** When `t` is not a prefix of `c`, its occurrences in `c` are exactly
      the occurrences in `c[1..]`, shifted by one. */
  lemma OccursShift(t: string, c: string)
    requires |t| <= |c| && c[..|t|] != t
    ensures (exists i :: OccursAt(t, c, i)) <==> (exists i :: OccursAt(t, c[1..], i))
  {
    if exists i :: OccursAt(t, c, i) {
      var i :| OccursAt(t, c, i);
      assert i != 0;
      assert c[1..][i - 1..i - 1 + |t|] == c[i..i + |t|];
      assert OccursAt(t, c[1..], i - 1);
    }
    if exists i :: OccursAt(t, c[1..], i) {
      var i :| OccursAt(t, c[1..], i);
      assert c[1..][i..i + |t|] == c[i + 1..i + 1 + |t|];
      assert OccursAt(t, c, i + 1);
    }
  }

  /** Python's `any(t in c for t in ts)`. */
  function AnyOccurs(ts: seq<string>, c: string): (r: bool)
    ensures r <==> exists t :: t in ts && Occurs(t, c)
  {
    if ts == [] then false
    else if Occurs(ts[0], c) then
      assert ts[0] in ts;
      true
    else
      assert forall t :: t in ts <==> t == ts[0] || t in ts[1..];
      AnyOccurs(ts[1..], c)
  }

  /** Python's `"\n".join(lines)`: the lines in order, with one newline
      between consecutive lines. */
  function Join(lines: seq<string>): (s: string)
  {
    if |lines| == 0 then ""
    else if |lines| == 1 then lines[0]
    else lines[0] + "\n" + Join(lines[1..])
  }

  /** Splitting at every newline; the partner of `Join`. */
  function Split(s: string): (r: seq<string>)
    ensures |r| >= 1
  {
    if |s| == 0 then [""]
    else if s[0] == '\n' then [""] + Split(s[1..])
    else
      var rest := Split(s[1..]);
      [[s[0]] + rest[0]] + rest[1..]
  }

  ghost predicate NoNewline(lines: seq<string>)
  {
    forall k :: 0 <= k < |lines| ==> '\n' !in lines[k]
  }

  /** Joining a non-empty buffer and appending one more line to it. */
  lemma {:induction false} JoinSnoc(lines: seq<string>, x: string)
    requires |lines| >= 1
    ensures Join(lines + [x]) == Join(lines) + "\n" + x
    decreases |lines|
  {
    if |lines| == 1 {
      assert lines + [x] == [lines[0], x];
      assert [lines[0], x][1..] == [x];
    } else {
      assert (lines + [x])[1..] == lines[1..] + [x];
      JoinSnoc(lines[1..], x);
    }
  }

  lemma {:induction false} SplitNoNewline(s: string)
    requires '\n' !in s
    ensures Split(s) == [s]
    decreases |s|
  {
    if |s| > 0 {
      SplitNoNewline(s[1..]);
      assert [s[0]] + s[1..] == s;
    }
  }

  lemma {:induction false} SplitAtNewline(a: string, b: string)
    requires '\n' !in a
    ensures Split(a + "\n" + b) == [a] + Split(b)
    decreases |a|
  {
    if |a| == 0 {
      assert a + "\n" + b == "\n" + b;
      assert ("\n" + b)[1..] == b;
    } else {
      var s := a + "\n" + b;
      assert s[0] == a[0];
      assert s[1..] == a[1..] + "\n" + b;
      SplitAtNewline(a[1..], b);
      assert [a[0]] + a[1..] == a;
    }
  }

  /** Round trip: when no buffered line contains a newline, the merged text
      gives back exactly the lines, in order. */
  lemma {:induction false} SplitJoin(lines: seq<string>)
    requires |lines| >= 1 && NoNewline(lines)
    ensures Split(Join(lines)) == lines
    decreases |lines|
  {
    if |lines| == 1 {
      SplitNoNewline(lines[0]);
    } else {
      SplitAtNewline(lines[0], Join(lines[1..]));
      SplitJoin(lines[1..]);
    }
  }
}

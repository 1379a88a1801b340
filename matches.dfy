/** The list operations the recognition engine applies to what the recognizer hands back:
    joining partial matches into one transcript, picking the first final match, and dropping
    an excluded tag from the list of supported languages. */
module Matches {
  import opened AsrTypes

  /** The matches joined with an empty separator. */
  function Concat(matches: seq<string>): (r: string)
    ensures |r| == TotalLength(matches)
  {
    if matches == [] then "" else matches[0] + Concat(matches[1..])
  }

  /** The sum of the lengths of the matches. */
  function TotalLength(matches: seq<string>): nat
  {
    if matches == [] then 0 else |matches[0]| + TotalLength(matches[1..])
  }

  /** Joining yields the empty transcript exactly when every match is empty. */
  lemma {:induction false} ConcatEmpty(matches: seq<string>)
    ensures Concat(matches) == "" <==> forall i :: 0 <= i < |matches| ==> matches[i] == ""
  {
    if matches != [] {
      ConcatEmpty(matches[1..]);
      assert forall i :: 1 <= i < |matches| ==> matches[i] == matches[1..][i - 1];
    }
  }

  /** Joining distributes over concatenation of match lists. */
  lemma {:induction false} ConcatAppend(a: seq<string>, b: seq<string>)
    ensures Concat(a + b) == Concat(a) + Concat(b)
  {
    if a == [] {
      assert a + b == b;
    } else {
      assert (a + b)[1..] == a[1..] + b;
      ConcatAppend(a[1..], b);
    }
  }

  /** The text of a final result: the first match, or "" when the list is missing or empty. */
  function FirstOrEmpty(matches: Option<seq<string>>): (r: string)
    ensures matches.Some? && matches.value != [] ==> r == matches.value[0]
    ensures matches == None || matches == Some([]) ==> r == ""
  {
    if matches.Some? && matches.value != [] then matches.value[0] else ""
  }

  /** The list with its first occurrence of x removed; unchanged when x does not occur. */
  function RemoveFirst(xs: seq<string>, x: string): (r: seq<string>)
    ensures x !in xs ==> r == xs
    ensures x in xs ==> |r| == |xs| - 1
  {
    if xs == [] then []
    else if xs[0] == x then xs[1..]
    else [xs[0]] + RemoveFirst(xs[1..], x)
  }

  /** The position of the earliest occurrence of x. */
  function FirstIndex(xs: seq<string>, x: string): (i: nat)
    requires x in xs
    ensures i < |xs| && xs[i] == x && x !in xs[..i]
  {
    if xs[0] == x then 0
    else
      var j := FirstIndex(xs[1..], x);
      assert xs[..j + 1] == [xs[0]] + xs[1..][..j];
      j + 1
  }

  /** RemoveFirst deletes exactly the earliest x and keeps everything else in order. */
  lemma {:induction false} RemoveFirstAt(xs: seq<string>, x: string)
    requires x in xs
    ensures RemoveFirst(xs, x) == xs[..FirstIndex(xs, x)] + xs[FirstIndex(xs, x) + 1..]
  {
    if xs[0] == x {
      assert xs[..0] + xs[1..] == xs[1..];
    } else {
      var tail := xs[1..];
      assert xs == [xs[0]] + tail;
      assert x in tail;
      var j := FirstIndex(tail, x);
      assert FirstIndex(xs, x) == j + 1;
      RemoveFirstAt(tail, x);
      calc {
        RemoveFirst(xs, x);
        [xs[0]] + RemoveFirst(tail, x);
        [xs[0]] + (tail[..j] + tail[j + 1..]);
        ([xs[0]] + tail[..j]) + tail[j + 1..];
        { assert xs[..j + 1] == [xs[0]] + tail[..j]; assert xs[j + 2..] == tail[j + 1..]; }
        xs[..j + 1] + xs[j + 2..];
      }
    }
  }

  /** Removal takes away one copy of x and nothing else. */
  lemma {:induction false} RemoveFirstMultiset(xs: seq<string>, x: string)
    ensures multiset(RemoveFirst(xs, x)) == multiset(xs) - multiset{x}
  {
    if xs != [] {
      assert xs == [xs[0]] + xs[1..];
      if xs[0] != x {
        RemoveFirstMultiset(xs[1..], x);
      }
    }
  }

  /** A tag other than x is in the list after removal exactly when it was before. */
  lemma RemoveFirstKeepsOthers(xs: seq<string>, x: string, y: string)
    requires y != x
    ensures y in RemoveFirst(xs, x) <==> y in xs
  {
    RemoveFirstMultiset(xs, x);
    assert y in multiset(RemoveFirst(xs, x)) <==> y in multiset(xs);
  }
}

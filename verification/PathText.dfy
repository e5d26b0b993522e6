/** Path names as text: splitting at slashes and joining again. */
module PathText {

  /** The length of s up to its first slash, or all of it. */
  function FirstSlash(s: string): (r: nat)
    ensures r <= |s|
    ensures forall i :: 0 <= i < r ==> s[i] != '/'
    ensures r < |s| ==> s[r] == '/'
  {
    if s == "" || s[0] == '/' then 0 else 1 + FirstSlash(s[1..])
  }

  /** The stretches between the slashes, empty ones included. */
  function Split(s: string): (r: seq<string>)
    ensures r != []
    decreases |s|
  {
    var i := FirstSlash(s);
    if i == |s| then [s] else [s[..i]] + Split(s[i + 1..])
  }

  /** Every segment with a slash in front. */
  function Slashed(segments: seq<string>): string {
    if segments == [] then "" else Slashed(segments[..|segments| - 1]) + "/" + segments[|segments| - 1]
  }

  predicate NoSlash(s: string) {
    forall i :: 0 <= i < |s| ==> s[i] != '/'
  }

  lemma SlashedLast(front: seq<string>, last: string)
    ensures Slashed(front + [last]) == Slashed(front) + "/" + last
    ensures Slashed([]) == ""
  {
    assert (front + [last])[..|front|] == front;
  }

  lemma {:induction false} SlashedAppend(a: seq<string>, b: seq<string>)
    ensures Slashed(a + b) == Slashed(a) + Slashed(b)
  {
    hide Slashed;
    if b == [] {
      assert a + b == a;
      SlashedLast(a, "");
    } else {
      var front, last := b[..|b| - 1], b[|b| - 1];
      SlashedAppend(a, front);
      SlashedLast(a + front, last);
      SlashedLast(front, last);
      assert b == front + [last] && a + b == (a + front) + [last];
    }
  }

  lemma SlashedFirst(segments: seq<string>)
    requires segments != []
    ensures Slashed(segments) == "/" + segments[0] + Slashed(segments[1..])
  {
    assert segments == [segments[0]] + segments[1..];
    SlashedAppend([segments[0]], segments[1..]);
    assert Slashed([segments[0]]) == "/" + segments[0] by {
      assert [segments[0]][..0] == [];
    }
  }

  lemma {:induction false} SlashedStarts(segments: seq<string>)
    ensures segments != [] ==> Slashed(segments) != "" && Slashed(segments)[0] == '/'
    ensures |Slashed(segments)| >= |segments|
  {
    if segments != [] {
      SlashedStarts(segments[..|segments| - 1]);
    }
  }

  lemma FirstSlashIs(a: string, s: string)
    requires NoSlash(a) && a <= s && (|a| < |s| ==> s[|a|] == '/')
    ensures FirstSlash(s) == |a|
  {
    hide FirstSlash;
    assert forall i :: 0 <= i < |a| ==> s[i] == a[i];
  }

  lemma SplitFirst(a: string, b: string)
    requires NoSlash(a)
    ensures Split(a + "/" + b) == [a] + Split(b)
    ensures Split(a) == [a]
  {
    hide FirstSlash;
    var s := a + "/" + b;
    FirstSlashIs(a, s);
    FirstSlashIs(a, a);
    assert s[..|a|] == a && s[|a| + 1..] == b;
  }

  lemma CutAtSlash(s: string) returns (head: string, tail: string)
    requires !NoSlash(s)
    ensures s == head + "/" + tail && NoSlash(head)
  {
    var i := FirstSlash(s);
    head, tail := s[..i], s[i + 1..];
    assert i < |s|;
  }

  lemma {:induction false} SplitSlashed(s: string)
    ensures Slashed(Split(s)) == "/" + s
    ensures forall k :: 0 <= k < |Split(s)| ==> NoSlash(Split(s)[k])
    decreases |s|
  {
    hide Split, Slashed, NoSlash;
    if NoSlash(s) {
      SplitFirst(s, "");
      SlashedFirst([s]);
      SlashedNone();
      assert [s][1..] == [];
    } else {
      var head, tail := CutAtSlash(s);
      SplitFirst(head, tail);
      SplitSlashed(tail);
      SlashedFirst(Split(s));
      assert Split(s)[1..] == Split(tail);
    }
  }

  lemma SlashedNone()
    ensures Slashed([]) == ""
  {
  }

  /** Joining is undone by splitting. */
  lemma {:induction false} SplitJoined(segments: seq<string>)
    requires segments != [] && forall k :: 0 <= k < |segments| ==> NoSlash(segments[k])
    ensures Slashed(segments) != "" && Split(Slashed(segments)[1..]) == segments
  {
    hide Split, Slashed, NoSlash;
    SlashedStarts(segments);
    SlashedFirst(segments);
    var rest := segments[1..];
    var joined := Slashed(segments)[1..];
    assert joined == segments[0] + Slashed(rest);
    assert segments == [segments[0]] + rest;
    if rest == [] {
      SlashedNone();
      assert joined == segments[0];
      SplitFirst(segments[0], "");
    } else {
      SplitJoined(rest);
      SlashedStarts(rest);
      var tail := Slashed(rest)[1..];
      assert joined == segments[0] + "/" + tail;
      SplitFirst(segments[0], tail);
    }
  }

  /** A slash put between two texts only puts their segments side by side. */
  lemma {:induction false} SplitConcat(a: string, b: string)
    ensures Split(a + "/" + b) == Split(a) + Split(b)
    decreases |a|
  {
    hide Split, NoSlash;
    if NoSlash(a) {
      SplitFirst(a, b);
    } else {
      var head, tail := CutAtSlash(a);
      SplitConcat(tail, b);
      SplitFirst(head, tail);
      SplitFirst(head, tail + "/" + b);
      assert a + "/" + b == head + "/" + (tail + "/" + b);
    }
  }
}

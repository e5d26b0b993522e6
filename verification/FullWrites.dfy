/** The loops of FileDescriptor (eden/common/utils/FileDescriptor.cpp) that repeat a system call until
    everything is transferred.  What the kernel answers is a sequence of replies; when it ends before
    the loop does, the call is still blocked. */
module FullWrites {
  import opened Numbering
  import opened Buffers

  /** An error of EINTR, another error, or a transfer of at most n bytes. */
  datatype Reply = Interrupted | Fails | Takes(n: nat)

  datatype Outcome = Finished | Failed | EndOfFile | Blocked

  // ----- wrapvFull() for writing -----

  /** The vectors without their first r bytes; an emptied vector is dropped with its bytes. */
  function Advanced(iov: seq<seq<Byte>>, r: nat): seq<seq<Byte>> {
    if r == 0 || iov == [] then iov
    else if r >= |iov[0]| then Advanced(iov[1..], r - |iov[0]|)
    else [iov[0][r..]] + iov[1..]
  }

  /** The bytes that one writev() offers. */
  function Offered(iov: seq<seq<Byte>>): seq<Byte> {
    Flatten(iov[..Min(|iov|, IOV_MAX)])
  }

  /** What is sent in all, and how it ends. */
  function Sent(iov: seq<seq<Byte>>, replies: seq<Reply>): (seq<Byte>, Outcome)
    decreases |replies|
  {
    if replies == [] then ([], Blocked)
    else
      match replies[0]
      case Interrupted => if iov == [] then ([], Finished) else Sent(iov, replies[1..])
      case Fails => ([], Failed)
      case Takes(n) =>
        var r := Min(n, |Offered(iov)|);
        if r == 0 then ([], EndOfFile)
        else if Advanced(iov, r) == [] then (Offered(iov)[..r], Finished)
        else
          var (rest, outcome) := Sent(Advanced(iov, r), replies[1..]);
          (Offered(iov)[..r] + rest, outcome)
  }

  lemma {:induction false} AdvancedIs(iov: seq<seq<Byte>>, r: nat)
    requires r <= |Flatten(iov)|
    ensures Flatten(Advanced(iov, r)) == Flatten(iov)[r..]
  {
    if r > 0 && iov != [] {
      if r >= |iov[0]| {
        AdvancedIs(iov[1..], r - |iov[0]|);
        assert Flatten(iov)[r..] == Flatten(iov[1..])[r - |iov[0]|..];
      } else {
        var next := [iov[0][r..]] + iov[1..];
        assert next[1..] == iov[1..];
      }
    }
  }

  /** What is left from an empty vector on was there before. */
  lemma {:induction false} AdvancedTail(iov: seq<seq<Byte>>, r: nat, k: nat)
    requires k < |Advanced(iov, r)| && Advanced(iov, r)[k] == []
    ensures |Advanced(iov, r)| <= |iov|
    ensures Advanced(iov, r)[k..] == iov[|iov| - |Advanced(iov, r)| + k..]
  {
    if r > 0 && iov != [] {
      if r >= |iov[0]| {
        AdvancedTail(iov[1..], r - |iov[0]|, k);
        DropOne(iov, |iov| - |Advanced(iov, r)| + k);
      } else {
        DropOne(Advanced(iov, r), k);
        DropOne(iov, k);
      }
    }
  }

  lemma DropOne(iov: seq<seq<Byte>>, k: nat)
    requires 0 < k <= |iov|
    ensures iov[k..] == iov[1..][k - 1..]
  {
  }

  lemma OfferedIsFirst(iov: seq<seq<Byte>>)
    ensures Offered(iov) <= Flatten(iov)
    ensures |iov| <= IOV_MAX ==> Offered(iov) == Flatten(iov)
  {
    FlattenSplit(iov, Min(|iov|, IOV_MAX));
    assert iov[..|iov|] == iov;
  }

  /** As many vectors in a row as one writev() looks at are all empty. */
  predicate EmptyFrom(iov: seq<seq<Byte>>, k: nat) {
    k + IOV_MAX <= |iov| && forall j :: k <= j < k + IOV_MAX ==> iov[j] == []
  }

  /** And bytes lie behind them. */
  predicate Behind(iov: seq<seq<Byte>>) {
    exists k: nat :: k < |iov| && EmptyFrom(iov, k) && Flatten(iov[k..]) != []
  }

  lemma {:induction false} FlattenEmpty(iov: seq<seq<Byte>>)
    requires Flatten(iov) == []
    ensures forall j :: 0 <= j < |iov| ==> iov[j] == []
  {
    if iov != [] {
      FlattenEmpty(iov[1..]);
      assert forall j :: 1 <= j < |iov| ==> iov[j] == iov[1..][j - 1];
    }
  }

  /** An empty stretch of what is left is one of what was there: a vector taken in part is not empty. */
  lemma StretchStays(iov: seq<seq<Byte>>, r: nat)
    requires r <= |Flatten(iov)| && Behind(Advanced(iov, r))
    ensures Behind(iov)
  {
    hide Advanced, Flatten;
    var next := Advanced(iov, r);
    var k: nat :| k < |next| && EmptyFrom(next, k) && Flatten(next[k..]) != [];
    AdvancedTail(iov, r, k);
    var d := |iov| - |next|;
    assert next[k..] == iov[d + k..];
    forall j | d + k <= j < d + k + IOV_MAX ensures iov[j] == [] {
      assert iov[j] == iov[d + k..][j - d - k] == next[k..][j - d - k] == next[j - d];
    }
    assert EmptyFrom(iov, d + k);
  }

  lemma NothingOffered(iov: seq<seq<Byte>>)
    requires Offered(iov) == []
    ensures Flatten(iov) == [] || Behind(iov)
  {
    OfferedIsFirst(iov);
    if |iov| > IOV_MAX {
      FlattenEmpty(iov[..IOV_MAX]);
      assert forall j :: 0 <= j < IOV_MAX ==> iov[j] == iov[..IOV_MAX][j];
      assert EmptyFrom(iov, 0) && iov[0..] == iov;
    }
  }

  /** For every pattern of short writes and interruptions, what reaches the other side is a first part
      of the vectors' bytes, and all of them when the loop finishes.  It ends early only on an error,
      when the kernel takes nothing of something, or when bytes lie behind 1024 empty vectors in a row. */
  lemma {:induction false} SentIsPrefix(iov: seq<seq<Byte>>, replies: seq<Reply>)
    ensures var (sent, outcome) := Sent(iov, replies);
      && sent <= Flatten(iov)
      && (outcome.Finished? ==> sent == Flatten(iov))
      && (outcome.EndOfFile? ==> sent == Flatten(iov) || Takes(0) in replies || Behind(iov))
      && (outcome.Failed? ==> Fails in replies)
    decreases |replies|
  {
    hide Flatten, Offered, Advanced, Behind;
    if replies != [] {
      OfferedIsFirst(iov);
      match replies[0]
      case Interrupted =>
        FlattenNone();
        SentIsPrefix(iov, replies[1..]);
      case Fails =>
      case Takes(n) =>
        var r := Min(n, |Offered(iov)|);
        if r == 0 {
          if n != 0 {
            NothingOffered(iov);
          }
        } else {
          AdvancedIs(iov, r);
          FlattenNone();
          assert Flatten(iov) == Offered(iov)[..r] + Flatten(iov)[r..];
          SentIsPrefix(Advanced(iov, r), replies[1..]);
          var (rest, outcome) := Sent(Advanced(iov, r), replies[1..]);
          if outcome.EndOfFile? && Behind(Advanced(iov, r)) {
            StretchStays(iov, r);
          }
        }
    }
  }

  /** How many of the replies are transfers. */
  function Transfers(replies: seq<Reply>): nat {
    if replies == [] then 0 else (if replies[0].Takes? then 1 else 0) + Transfers(replies[1..])
  }

  /** After these replies the loop goes on: none was an error or a transfer of nothing, and each transfer
      brought a byte at least. */
  predicate GoesOn(replies: seq<Reply>, bytes: nat) {
    Fails !in replies && Takes(0) !in replies && Transfers(replies) <= bytes
  }

  /** The loop blocks only when the replies are used up, and fails only at the first error. */
  lemma {:induction false} SentGoesOn(iov: seq<seq<Byte>>, replies: seq<Reply>)
    ensures var (sent, outcome) := Sent(iov, replies);
      && (outcome.Blocked? ==> GoesOn(replies, |sent|))
      && (outcome.Failed? ==> exists j :: 0 <= j < |replies| && replies[j].Fails? && GoesOn(replies[..j], |sent|))
    decreases |replies|
  {
    hide Flatten, Offered, Advanced;
    if replies == [] {
    } else if replies[0].Fails? {
      assert replies[..0] == [];
    } else {
      var r := if replies[0].Takes? then Min(replies[0].n, |Offered(iov)|) else 0;
      var next := if replies[0].Takes? then Advanced(iov, r) else iov;
      SentGoesOn(next, replies[1..]);
      var (sent, outcome) := Sent(iov, replies);
      if outcome.Failed? {
        var j :| 0 <= j < |replies| - 1 && replies[1..][j].Fails? && GoesOn(replies[1..][..j], |Sent(next, replies[1..]).0|);
        assert replies[..j + 1] == [replies[0]] + replies[1..][..j];
        assert replies[j + 1].Fails?;
      } else if outcome.Blocked? {
        assert replies == [replies[0]] + replies[1..];
      }
    }
  }

  lemma FlattenNone()
    ensures Flatten<Byte>([]) == []
  {
  }

  /** What one writev() offers does not go beyond such a stretch. */
  lemma OfferedUpTo(iov: seq<seq<Byte>>, k: nat)
    requires EmptyFrom(iov, k)
    ensures |Offered(iov)| <= |Flatten(iov[..k])|
  {
    var front := iov[..k + IOV_MAX];
    assert front[..k] == iov[..k] && front[..IOV_MAX] == iov[..IOV_MAX];
    EmptyFront(front[k..]);
    FlattenSplit(front, k);
    FlattenSplit(front, IOV_MAX);
  }

  /** Bytes taken from the first k vectors leave the others as they are. */
  lemma {:induction false} AdvancedBefore(iov: seq<seq<Byte>>, r: nat, k: nat)
    requires k <= |iov| && r <= |Flatten(iov[..k])|
    ensures |iov| - k <= |Advanced(iov, r)| <= |iov|
    ensures var k' := |Advanced(iov, r)| - (|iov| - k);
      && Advanced(iov, r)[k'..] == iov[k..] && |Flatten(Advanced(iov, r)[..k'])| + r == |Flatten(iov[..k])|
  {
    hide Flatten;
    FirstOf(iov, k);
    if r > 0 {
      if r >= |iov[0]| {
        AdvancedBefore(iov[1..], r - |iov[0]|, k - 1);
      } else {
        FirstOf([iov[0][r..]] + iov[1..], k);
      }
    }
  }

  lemma FirstOf(iov: seq<seq<Byte>>, k: nat)
    requires k <= |iov|
    ensures k == 0 ==> |Flatten(iov[..k])| == 0
    ensures k > 0 ==> |Flatten(iov[..k])| == |iov[0]| + |Flatten(iov[1..][..k - 1])| && iov[k..] == iov[1..][k - 1..]
  {
    if k > 0 {
      assert iov[..k][1..] == iov[1..][..k - 1];
    }
  }

  /** And no byte behind such a stretch is ever sent, whatever the kernel does. */
  lemma {:induction false} NothingBehind(iov: seq<seq<Byte>>, replies: seq<Reply>, k: nat)
    requires EmptyFrom(iov, k)
    ensures var (sent, outcome) := Sent(iov, replies); |sent| <= |Flatten(iov[..k])| && !outcome.Finished?
    decreases |replies|
  {
    hide Flatten, Offered, Advanced;
    if replies != [] {
      if replies[0].Interrupted? {
        NothingBehind(iov, replies[1..], k);
      } else if replies[0].Takes? {
        var r := Min(replies[0].n, |Offered(iov)|);
        OfferedUpTo(iov, k);
        AdvancedBefore(iov, r, k);
        var next := Advanced(iov, r);
        var k' := |next| - (|iov| - k);
        assert forall j :: k' <= j < k' + IOV_MAX ==> next[j] == next[k'..][j - k'] == iov[k..][j - k'];
        NothingBehind(next, replies[1..], k');
      }
    }
  }

  /** So not everything is sent if bytes lie behind such a stretch: the other half of SentIsPrefix. */
  lemma BehindIsLost(iov: seq<seq<Byte>>, replies: seq<Reply>)
    requires Behind(iov)
    ensures var (sent, outcome) := Sent(iov, replies); sent != Flatten(iov) && !outcome.Finished?
  {
    hide Flatten, Sent;
    var k: nat :| k < |iov| && EmptyFrom(iov, k) && Flatten(iov[k..]) != [];
    NothingBehind(iov, replies, k);
    FlattenSplit(iov, k);
  }

  /** The shortest such stretch: a byte behind 1024 empty vectors is never offered, and the loop takes
      that for the end of the file. */
  lemma StretchStops(replies: seq<Reply>)
    requires replies != [] && replies[0].Takes?
    ensures var iov := seq(IOV_MAX, _ => []) + [[7]];
      |iov| == 1025 && Sent(iov, replies) == ([], EndOfFile) && Flatten(iov) != []
  {
    hide Flatten;
    var front: seq<seq<Byte>> := seq(IOV_MAX, _ => []);
    var iov := front + [[7]];
    assert iov[..Min(|iov|, IOV_MAX)] == front;
    EmptyFront(front);
    FlattenConcat(front, [[7]]);
    OneVector();
  }

  lemma OneVector()
    ensures Flatten<Byte>([[7]]) == [7]
  {
    assert [[7]][1..] == [];
  }

  lemma {:induction false} EmptyFront(iov: seq<seq<Byte>>)
    requires forall j :: 0 <= j < |iov| ==> iov[j] == []
    ensures Flatten(iov) == []
  {
    if iov != [] {
      EmptyFront(iov[1..]);
    }
  }

  /** The inner loop: `r` bytes are taken off the front of the vectors. */
  method Advance(iov: seq<seq<Byte>>, r: nat) returns (rest: seq<seq<Byte>>)
    ensures rest == Advanced(iov, r)
  {
    rest := iov;
    var left: nat := r;
    while left != 0 && rest != []
      invariant Advanced(rest, left) == Advanced(iov, r)
      decreases |rest|, left
    {
      if left >= |rest[0]| {
        left := left - |rest[0]|;
        rest := rest[1..];
      } else {
        rest := [rest[0][left..]] + rest[1..];
        left := 0;
      }
    }
  }

  method WritevFull(iov: seq<seq<Byte>>, replies: seq<Reply>) returns (sent: seq<Byte>, totalBytes: nat, outcome: Outcome)
    ensures (sent, outcome) == Sent(iov, replies) && totalBytes == |sent|
  {
    hide Flatten, Offered, Advanced;
    sent, totalBytes := [], 0;
    var rest := iov;
    var k: nat := 0;
    var again := true;
    assert replies[0..] == replies;
    assert [] + Sent(iov, replies).0 == Sent(iov, replies).0;
    while again
      invariant k <= |replies| && totalBytes == |sent|
      invariant again ==> Sent(iov, replies) == (sent + Sent(rest, replies[k..]).0, Sent(rest, replies[k..]).1)
      invariant !again ==> Sent(iov, replies) == (sent, Finished)
      decreases |replies| - k, again
    {
      assert sent + [] == sent;
      if k == |replies| {
        return sent, totalBytes, Blocked;
      }
      var reply := replies[k];
      assert replies[k..][1..] == replies[k + 1..];
      k := k + 1;
      if reply.Interrupted? {
        again := rest != [];
        continue;
      }
      if reply.Fails? {
        return sent, totalBytes, Failed;
      }
      var offered := Offered(rest);
      var r := Min(reply.n, |offered|);
      if r == 0 {
        return sent, totalBytes, EndOfFile;
      }
      totalBytes := totalBytes + r;
      ghost var after := Sent(Advanced(rest, r), replies[k..]).0;
      assert sent + (offered[..r] + after) == (sent + offered[..r]) + after;
      sent := sent + offered[..r];
      rest := Advance(rest, r);
      again := rest != [];
    }
    return sent, totalBytes, Finished;
  }

  // ----- wrapFull() for reading -----

  /** What it stores is a first part of what the other side has sent, and as much as was asked for
      unless that ends before; `calls` counts the read() calls that were answered. */
  method ReadFull(stream: seq<Byte>, count: nat, replies: seq<Reply>) returns (buffer: seq<Byte>, outcome: Outcome, calls: nat)
    ensures buffer <= stream && |buffer| <= count && calls <= |replies|
    ensures outcome.Finished? ==> |buffer| == count
    ensures outcome.Blocked? ==> calls == |replies| && GoesOn(replies, |buffer|) && (calls > 0 ==> |buffer| < count)
    ensures outcome.EndOfFile? || outcome.Failed? ==> calls > 0 && GoesOn(replies[..calls - 1], |buffer|)
    ensures outcome.EndOfFile? ==> replies[calls - 1] == Takes(0) || (replies[calls - 1].Takes? && (|buffer| == count || buffer == stream))
    ensures outcome.Failed? ==> replies[calls - 1].Fails?
  {
    buffer := [];
    var left: nat := count;
    calls := 0;
    var again := true;
    while again
      invariant calls <= |replies|
      invariant buffer <= stream && |buffer| + left == count
      invariant GoesOn(replies[..calls], |buffer|)
      invariant again && calls > 0 ==> left > 0
      invariant !again ==> left == 0
      decreases |replies| - calls, again
    {
      if calls == |replies| {
        assert replies[..calls] == replies;
        return buffer, Blocked, calls;
      }
      var reply := replies[calls];
      calls := calls + 1;
      if reply.Interrupted? {
        NextReply(replies, calls - 1, |buffer|, |buffer|);
        again := left != 0;
        continue;
      }
      if reply.Fails? {
        return buffer, Failed, calls;
      }
      var r: nat := Min(reply.n, Min(left, |stream| - |buffer|));
      if r == 0 {
        return buffer, EndOfFile, calls;
      }
      NextReply(replies, calls - 1, |buffer|, |buffer| + r);
      buffer := buffer + stream[|buffer|..|buffer| + r];
      left := left - r;
      again := left != 0;
    }
    return buffer, Finished, calls;
  }

  lemma NextReply(replies: seq<Reply>, k: nat, bytes: nat, more: nat)
    requires k < |replies| && GoesOn(replies[..k], bytes) && more >= bytes
    requires replies[k].Interrupted? || (replies[k].Takes? && replies[k].n > 0 && more > bytes)
    ensures GoesOn(replies[..k + 1], more)
  {
    assert replies[..k + 1] == replies[..k] + [replies[k]];
    TransfersAppend(replies[..k], replies[k]);
  }

  lemma {:induction false} TransfersAppend(replies: seq<Reply>, reply: Reply)
    ensures Transfers(replies + [reply]) == Transfers(replies) + if reply.Takes? then 1 else 0
  {
    if replies == [] {
      assert [] + [reply] == [reply];
    } else {
      assert (replies + [reply])[1..] == replies[1..] + [reply];
      TransfersAppend(replies[1..], reply);
    }
  }
}

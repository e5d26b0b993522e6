/** The destructor of SubprocessScribeLogger: the writer thread ends, after writing what was accepted. */
module ScribeShutdown {
  import opened Buffers
  import opened ScribeLogger

  /** A bound on the steps that are left once no message comes any more. */
  function StepsLeft(s: Logger): nat {
    var phase :=
      match s.writer
      case Testing => 1
      case Waiting => 2
      case Writing(rest) => |rest| + 1
      case Returned => 0;
    s.notifiers + TotalSize(s.messages) + 3 * |s.messages| + phase
  }

  /** After the request to stop every step of the writer, and every notification, brings the end nearer. */
  lemma StoppingStep(s: Logger, a: Action)
    requires Inv(s) && s.shouldStop && Enabled(s, a)
    ensures var s' := Step(s, a);
      && s'.shouldStop && s'.accepted == s.accepted
      && StepsLeft(s') < StepsLeft(s)
      && (s'.failed <==> s.failed || a.WriteFails?)
  {
    hide Lines;
  }

  /** And until it has returned something can happen. */
  lemma StoppingGoesOn(s: Logger)
    requires Inv(s) && s.shouldStop && !s.writer.Returned?
    ensures exists a :: Enabled(s, a)
  {
    hide Lines, TotalSize;
    match s.writer
    case Testing => assert Enabled(s, Test);
    case Waiting => assert Enabled(s, Notify);
    case Writing(rest) => assert Enabled(s, Write(1));
    case Returned =>
  }

  lemma {:induction false} StoppingRun(states: seq<Logger>, actions: seq<Action>, i: nat, j: nat)
    requires IsRun(states, actions) && i < j <= |actions| && actions[i].RequestStop?
    ensures states[j].shouldStop && states[j].accepted == states[i].accepted
    ensures StepsLeft(states[j]) + (j - i - 1) <= StepsLeft(states[i + 1])
  {
    hide Step, Enabled, StepsLeft, Inv;
    if j == i + 1 {
      RequestIs(states[i]);
    } else {
      StoppingRun(states, actions, i, j - 1);
      RunKeeps(states, actions, j - 1);
      StoppingStep(states[j - 1], actions[j - 1]);
    }
  }

  lemma RequestIs(s: Logger)
    requires Enabled(s, RequestStop)
    ensures Step(s, RequestStop).shouldStop && Step(s, RequestStop).accepted == s.accepted
  {
  }

  /** thread_.join() returns: once the destructor has asked, at most StepsLeft more steps are taken, wake-ups
      without a notification included, and nothing more can happen only when the writer has returned and
      every notification was made.  Then, unless a write failed, the child has received exactly what was
      accepted until then if and only if nothing was given up. */
  lemma WriterReturns(states: seq<Logger>, actions: seq<Action>, i: nat)
    requires IsRun(states, actions) && i < |actions| && actions[i].RequestStop?
    ensures var s := states[|actions|];
      && |actions| <= i + 1 + StepsLeft(states[i + 1])
      && ((forall a :: !Enabled(s, a)) <==> s.writer.Returned? && s.notifiers == 0)
      && (s.writer.Returned? && !s.failed ==> (s.output == Lines(states[i].accepted) <==> s.lost == 0))
  {
    hide Step, Enabled, StepsLeft, Lines;
    var n := |actions|;
    StoppingRun(states, actions, i, n);
    RunKeeps(states, actions, n);
    CleanShutdown(states, actions, n);
    var s := states[n];
    if s.writer.Returned? {
      ReturnedIsOver(s);
      assert Enabled(s, Notify) <==> s.notifiers > 0;
    } else {
      StoppingGoesOn(s);
    }
  }

  lemma ReturnedIsOver(s: Logger)
    requires s.shouldStop && s.writer.Returned?
    ensures forall a :: Enabled(s, a) <==> a.Notify? && s.notifiers > 0
  {
  }

  /** While the logger runs, the writer only comes to rest when all that was accepted has been written. */
  lemma RestMeansWritten(states: seq<Logger>, actions: seq<Action>, i: nat)
    requires IsRun(states, actions) && i < |states| && states[i].writer.Waiting? && !Enabled(states[i], Notify)
    ensures var s := states[i];
      s.messages == [] && !s.failed && (s.lost == 0 ==> s.output == Lines(s.accepted))
  {
    hide Lines;
    RunKeeps(states, actions, i);
    var s := states[i];
    assert s.accepted[..s.taken] == s.accepted;
    assert s.output + [] == s.output;
  }
}

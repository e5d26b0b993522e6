/** SubprocessScribeLogger (eden/common/telemetry/SubprocessScribeLogger.cpp): callers queue messages
    within a byte limit, and a writer thread sends them, newline-delimited, to a child process. */
module ScribeLogger {
  import opened Buffers
  import opened FullWrites

  type Message = seq<Byte>

  const QUEUE_LIMIT_BYTES := 128 * 1024
  const NEWLINE: Byte := 10

  /** The writer thread: about to test for work; waiting for a notification; in writevFull() with the
      bytes it has still to write; or returned. */
  datatype Writer = Testing | Waiting | Writing(rest: seq<Byte>) | Returned

  /** `notifiers` counts the threads between their unlock and notify_one().  History: the messages
      accepted, the number of them the writer has taken, the bytes that reached the child,
      how many were given up because writev() took nothing, and whether writing has failed. */
  datatype Logger = Logger(
    shouldStop: bool,
    didStop: bool,
    messages: seq<Message>,
    totalBytes: nat,
    notifiers: nat,
    writer: Writer,
    accepted: seq<Message>,
    taken: nat,
    output: seq<Byte>,
    lost: nat,
    failed: bool)

  function Initial(): Logger {
    Logger(false, false, [], 0, 0, Testing, [], 0, [], 0, false)
  }

  datatype Action =
    | Log(message: Message)
    | RequestStop          // the destructor's first part
    | Notify
    | Wake                 // a wait may end without a notification
    | Test                 // the writer's critical section
    | Write(n: nat)        // one writev() that takes n bytes
    | WriteNothing         // one that takes nothing, which writevFull() treats as the end of the file, not as an error
    | WriteFails

  predicate Enabled(s: Logger, a: Action) {
    match a
    case Log(_) => !s.shouldStop
    case RequestStop => !s.shouldStop
    case Notify => s.notifiers > 0
    case Wake => s.writer.Waiting?
    case Test => s.writer.Testing?
    case Write(n) => s.writer.Writing? && 0 < n <= |s.writer.rest|
    case WriteNothing => s.writer.Writing?
    case WriteFails => s.writer.Writing?
  }

  function Step(s: Logger, a: Action): Logger
    requires Enabled(s, a)
  {
    match a
    case Log(m) =>
      if s.didStop || s.totalBytes + |m| > QUEUE_LIMIT_BYTES then s
      else s.(messages := s.messages + [m], totalBytes := s.totalBytes + |m|, notifiers := s.notifiers + 1, accepted := s.accepted + [m])
    case RequestStop => s.(shouldStop := true, notifiers := s.notifiers + 1)
    case Notify => s.(notifiers := s.notifiers - 1, writer := if s.writer.Waiting? then Testing else s.writer)
    case Wake => s.(writer := Testing)
    case Test =>
      if s.messages != [] then
        var m := s.messages[0];
        s.(messages := s.messages[1..], totalBytes := if |m| <= s.totalBytes then s.totalBytes - |m| else 0,
           taken := s.taken + 1, writer := Writing(m + [NEWLINE]))
      else if s.shouldStop then s.(didStop := true, writer := Returned)
      else s.(writer := Waiting)
    case Write(n) =>
      s.(output := s.output + s.writer.rest[..n], writer := if n == |s.writer.rest| then Testing else Writing(s.writer.rest[n..]))
    case WriteNothing => s.(lost := s.lost + |s.writer.rest|, writer := Testing)
    case WriteFails => s.(didStop := true, messages := [], totalBytes := 0, writer := Returned, failed := true)
  }

  /** The messages as the child should see them. */
  function Lines(messages: seq<Message>): seq<Byte> {
    if messages == [] then [] else Lines(messages[..|messages| - 1]) + messages[|messages| - 1] + [NEWLINE]
  }

  function TotalSize(messages: seq<Message>): nat {
    if messages == [] then 0 else |messages[0]| + TotalSize(messages[1..])
  }

  lemma {:induction false} TotalAppend(messages: seq<Message>, m: Message)
    ensures TotalSize(messages + [m]) == TotalSize(messages) + |m|
  {
    if messages == [] {
      assert messages + [m] == [m];
    } else {
      TotalAppend(messages[1..], m);
      assert (messages + [m])[1..] == messages[1..] + [m];
    }
  }

  lemma LinesAppend(messages: seq<Message>, m: Message)
    ensures Lines(messages + [m]) == Lines(messages) + m + [NEWLINE]
  {
    assert (messages + [m])[..|messages|] == messages;
  }

  lemma LinesNone()
    ensures Lines([]) == []
  {
  }

  // ----- what every step keeps -----

  /** The queue is what has been accepted and not yet taken; the byte count is its size, in the limit. */
  predicate Accounting(s: Logger) {
    && s.totalBytes == TotalSize(s.messages) <= QUEUE_LIMIT_BYTES
    && s.taken <= |s.accepted|
    && (!s.failed ==> s.messages == s.accepted[s.taken..])
    && (s.didStop ==> s.messages == [])
    && (s.didStop <==> s.writer.Returned?)
  }

  function Rest(s: Logger): seq<Byte> {
    if s.writer.Writing? then s.writer.rest else []
  }

  /** The child has received the messages taken, each followed by a newline, except for the rest of the
      last one and for what was lost. */
  predicate Output(s: Logger) {
    && s.taken <= |s.accepted|
    && (s.writer.Writing? ==> s.writer.rest != [])
    && (!s.failed ==> |s.output| + |Rest(s)| + s.lost == |Lines(s.accepted[..s.taken])|)
    && (!s.failed && s.lost == 0 ==> s.output + Rest(s) == Lines(s.accepted[..s.taken]))
    && (s.lost == 0 ==> s.output <= Lines(s.accepted))
  }

  predicate NoLostWakeup(s: Logger) {
    s.writer.Waiting? && (s.shouldStop || s.messages != []) ==> s.notifiers > 0
  }

  /** A failed write is the writer's last. */
  predicate FailedStays(s: Logger) {
    s.failed ==> s.writer.Returned?
  }

  predicate Inv(s: Logger) {
    Accounting(s) && Output(s) && NoLostWakeup(s) && FailedStays(s)
  }

  lemma {:induction false} LinesPrefix(messages: seq<Message>, k: nat)
    requires k <= |messages|
    ensures Lines(messages[..k]) <= Lines(messages)
  {
    if k < |messages| {
      var front := messages[..|messages| - 1];
      LinesPrefix(front, k);
      assert front[..k] == messages[..k];
    } else {
      assert messages[..k] == messages;
    }
  }

  lemma AccountingKept(s: Logger, a: Action)
    requires Accounting(s) && FailedStays(s) && Enabled(s, a)
    ensures Accounting(Step(s, a))
  {
    hide Lines;
    if a.Log? {
      TotalAppend(s.messages, a.message);
    }
  }

  lemma LogOutput(s: Logger, m: Message)
    requires Output(s) && Enabled(s, Log(m))
    ensures Output(Step(s, Log(m)))
  {
    hide TotalSize, Lines;
    LinesAppend(s.accepted, m);
    assert (s.accepted + [m])[..s.taken] == s.accepted[..s.taken];
  }

  /** The writer takes the next message. */
  lemma TakeOutput(s: Logger)
    requires Accounting(s) && Output(s) && FailedStays(s) && Enabled(s, Test) && s.messages != []
    ensures Output(Step(s, Test))
  {
    hide TotalSize, Lines;
    var m := s.messages[0];
    assert s.accepted[..s.taken + 1] == s.accepted[..s.taken] + [m];
    LinesAppend(s.accepted[..s.taken], m);
    LinesPrefix(s.accepted, s.taken + 1);
    assert s.output + [] == s.output;
    assert s.output + (m + [NEWLINE]) == s.output + m + [NEWLINE];
  }

  lemma WriteOutput(s: Logger, n: nat)
    requires Output(s) && FailedStays(s) && Enabled(s, Write(n))
    ensures Output(Step(s, Write(n)))
  {
    hide TotalSize, Lines;
    var rest := s.writer.rest;
    assert n == |rest| ==> rest[n..] == [];
    assert (s.output + rest[..n]) + rest[n..] == s.output + rest;
    LinesPrefix(s.accepted, s.taken);
  }

  lemma OutputKept(s: Logger, a: Action)
    requires Accounting(s) && Output(s) && FailedStays(s) && Enabled(s, a)
    ensures Output(Step(s, a))
  {
    if a.Log? {
      LogOutput(s, a.message);
    } else if a.Test? && s.messages != [] {
      TakeOutput(s);
    } else if a.Write? {
      WriteOutput(s, a.n);
    } else {
      hide TotalSize, Lines;
      assert s.output + [] == s.output;
    }
  }

  lemma StepKeeps(s: Logger, a: Action)
    requires Inv(s) && Enabled(s, a)
    ensures Inv(Step(s, a))
  {
    hide Accounting, Output;
    AccountingKept(s, a);
    OutputKept(s, a);
  }

  // ----- runs -----

  predicate IsRun(states: seq<Logger>, actions: seq<Action>) {
    && |states| == |actions| + 1
    && states[0] == Initial()
    && forall i :: 0 <= i < |actions| ==> Enabled(states[i], actions[i]) && states[i + 1] == Step(states[i], actions[i])
  }

  lemma {:induction false} RunKeeps(states: seq<Logger>, actions: seq<Action>, i: nat)
    requires IsRun(states, actions) && i < |states|
    ensures Inv(states[i])
  {
    hide Step, Enabled;
    if i > 0 {
      RunKeeps(states, actions, i - 1);
      hide Inv;
      StepKeeps(states[i - 1], actions[i - 1]);
    }
  }

  /** Once the writer has stopped without a failed write, the child has received exactly the accepted
      messages, each followed by a newline, in the order of acceptance, if and only if writev() never
      took nothing of something; and until that happens it has a first part of them, whatever fails. */
  lemma CleanShutdown(states: seq<Logger>, actions: seq<Action>, i: nat)
    requires IsRun(states, actions) && i < |states|
    ensures var s := states[i];
      && (s.lost == 0 ==> s.output <= Lines(s.accepted))
      && (s.didStop && !s.failed ==> (s.output == Lines(s.accepted) <==> s.lost == 0))
  {
    hide Lines;
    RunKeeps(states, actions, i);
    var s := states[i];
    if s.didStop && !s.failed {
      assert s.accepted[..s.taken] == s.accepted;
      assert s.output + [] == s.output;
    }
  }

  /** totalBytes is always the size of what is queued and within the limit, so the two checks of the
      writer hold, and nothing is queued once it has stopped. */
  lemma QueueBounded(states: seq<Logger>, actions: seq<Action>, i: nat)
    requires IsRun(states, actions) && i < |states|
    ensures var s := states[i];
      && s.totalBytes == TotalSize(s.messages) <= QUEUE_LIMIT_BYTES
      && (s.messages != [] ==> |s.messages[0]| <= s.totalBytes)
      && (s.messages == [] ==> s.totalBytes == 0)
      && (s.didStop ==> s.messages == [])
  {
    RunKeeps(states, actions, i);
  }

  /** A message is dropped exactly when the writer has stopped or it would exceed the limit. */
  lemma DroppedExactly(s: Logger, m: Message)
    requires Accounting(s) && Enabled(s, Log(m))
    ensures Step(s, Log(m)).accepted == s.accepted <==> s.writer.Returned? || TotalSize(s.messages) + |m| > QUEUE_LIMIT_BYTES
    ensures Step(s, Log(m)).accepted == s.accepted || Step(s, Log(m)).accepted == s.accepted + [m]
  {
  }

  /** The writer never sleeps on work or on the request to stop unless a notification is on its way. */
  lemma WriterWakes(states: seq<Logger>, actions: seq<Action>, i: nat)
    requires IsRun(states, actions) && i < |states|
    ensures var s := states[i];
      s.writer.Waiting? && (s.shouldStop || s.messages != []) ==> Enabled(s, Notify)
  {
    RunKeeps(states, actions, i);
  }

  // ----- the child can tell the messages apart -----

  predicate NoNewline(m: Message) {
    forall i :: 0 <= i < |m| ==> m[i] != NEWLINE
  }

  function FirstNewline(bytes: seq<Byte>): (r: nat)
    ensures r <= |bytes| && (r < |bytes| ==> bytes[r] == NEWLINE)
    ensures forall i :: 0 <= i < r ==> bytes[i] != NEWLINE
  {
    if bytes == [] || bytes[0] == NEWLINE then 0 else 1 + FirstNewline(bytes[1..])
  }

  /** What a reader of lines makes of the bytes. */
  function ReadLines(bytes: seq<Byte>): seq<Message>
    decreases |bytes|
  {
    var i := FirstNewline(bytes);
    if i == |bytes| then [] else [bytes[..i]] + ReadLines(bytes[i + 1..])
  }

  lemma LinesFirst(messages: seq<Message>)
    requires messages != []
    ensures Lines(messages) == messages[0] + [NEWLINE] + Lines(messages[1..])
    decreases |messages|
  {
    hide Lines;
    if |messages| == 1 {
      LinesAppend([], messages[0]);
      LinesNone();
      assert messages == [] + [messages[0]] && messages[1..] == [];
    } else {
      var front, last := messages[..|messages| - 1], messages[|messages| - 1];
      LinesFirst(front);
      LinesAppend(front, last);
      LinesAppend(front[1..], last);
      assert messages[1..] == front[1..] + [last];
      assert messages == front + [last];
    }
  }

  /** Messages without newlines, as the header demands of callers, are read back as they were accepted. */
  lemma {:induction false} LinesRoundTrip(messages: seq<Message>)
    requires forall k :: 0 <= k < |messages| ==> NoNewline(messages[k])
    ensures ReadLines(Lines(messages)) == messages
  {
    hide Lines, FirstNewline;
    if messages == [] {
      NoLines();
    } else {
      LinesFirst(messages);
      LinesRoundTrip(messages[1..]);
      var m, bytes := messages[0], Lines(messages);
      FirstLine(m, Lines(messages[1..]));
      assert messages == [m] + messages[1..];
    }
  }

  lemma NoLines()
    ensures ReadLines(Lines([])) == []
  {
  }

  lemma FirstLine(m: Message, rest: seq<Byte>)
    requires NoNewline(m)
    ensures ReadLines(m + [NEWLINE] + rest) == [m] + ReadLines(rest)
  {
    hide FirstNewline;
    var bytes := m + [NEWLINE] + rest;
    assert bytes[|m|] == NEWLINE && bytes[..|m|] == m && bytes[|m| + 1..] == rest;
    assert forall i :: 0 <= i < |m| ==> bytes[i] == m[i];
    assert FirstNewline(bytes) == |m|;
  }

  // ----- one message -----

  /** The write at the end of the writer's loop: a message and its newline in one writevFull(). */
  method WriteMessage(message: Message, replies: seq<Reply>) returns (sent: seq<Byte>, outcome: Outcome)
    ensures sent <= message + [NEWLINE]
    ensures outcome.Finished? ==> sent == message + [NEWLINE]
    ensures outcome.EndOfFile? ==> sent == message + [NEWLINE] || Takes(0) in replies
    ensures outcome.Failed? ==> Fails in replies
  {
    var iov := [message, [NEWLINE]];
    FlattenTwo(message, [NEWLINE]);
    SentIsPrefix(iov, replies);
    var n;
    sent, n, outcome := WritevFull(iov, replies);
  }
}

/** How the close of the playback stream ends: what it decides after a poll, and why it returns
    an error. */
module JitterClose {
  import opened Bytes
  import opened JitterBuffer

  /** One of the first `i` steps is this one. */
  ghost predicate Took(steps: seq<Step>, i: nat, step: Step) {
    exists k :: 0 <= k < i && k < |steps| && steps[k] == step
  }

  /** What the closer sees at a poll: the player is done, or plays and is at the tail. */
  predicate AtTail(cfg: Config, s: State) {
    s.playing && s.totalIn <= s.totalOut + cfg.tolerance
  }

  lemma DecisionByCloser(cfg: Config, s: State, a: CloserAction, t: State)
    requires CloserStep(cfg, s, a, t)
    ensures t.closer.Decide? && a != ReadPoll ==> s.closer == t.closer
    ensures s.closer.Decide? && t.closer != s.closer ==> a == SeeDone || a == SeeTail || a == GiveUp || a == PollAgain
  {
    hide Level, Waiting, CloserWants;
    match a
    case DeleteProducer => case LockCloser => case AskToStop => case ReadPoll => case SeeDone => case SeeTail =>
    case GiveUp => case PollAgain => case AcceptTail => case DeletePlayer => case MarkTimeout => case Cleanup(_) =>
  }

  lemma PollReads(cfg: Config, s: State, t: State)
    requires CloserStep(cfg, s, ReadPoll, t)
    ensures t.closer == Decide(s.done, AtTail(cfg, s))
  {
  }

  /** What is decided follows from what was seen. */
  lemma Decides(cfg: Config, s: State, a: CloserAction, t: State)
    requires CloserStep(cfg, s, a, t) && s.closer.Decide?
    requires a == SeeDone || a == SeeTail || a == GiveUp || a == PollAgain
    ensures t.closer.Final? <==> s.closer.sawDone
    ensures t.closer.Tail? <==> !s.closer.sawDone && s.closer.sawTail
    ensures t.closer.Kill? || t.closer.Poll? <==> !s.closer.sawDone && !s.closer.sawTail
  {
  }

  lemma DecisionStep(cfg: Config, s: State, step: Step, t: State)
    requires Next(cfg, s, step, t) && t.closer.Decide?
    ensures if step == ByCloser(ReadPoll) then t.closer == Decide(s.done, AtTail(cfg, s)) else s.closer == t.closer
  {
    hide ProducerStep, PlayerStep, CloserStep, AtTail;
    match step
    case ByProducer(a) => ProducerLeavesCloser(cfg, s, a, t);
    case ByPlayer(a) => PlayerKeepsFrame(cfg, s, a, t);
    case ByCloser(a) => {
      DecisionByCloser(cfg, s, a, t);
      if a == ReadPoll { PollReads(cfg, s, t); }
    }
  }

  lemma {:induction false} LastDecision(cfg: Config, states: seq<State>, steps: seq<Step>, i: nat) returns (k: nat)
    requires Execution(cfg, states, steps) && i <= |steps| && states[i].closer.Decide?
    ensures k < i && steps[k] == ByCloser(ReadPoll) && forall j :: k < j < i ==> steps[j] != ByCloser(ReadPoll)
    ensures states[i].closer == Decide(states[k].done, AtTail(cfg, states[k]))
    decreases i
  {
    hide Next, AtTail;
    NoDecisionYet();
    assert Next(cfg, states[i - 1], steps[i - 1], states[i]);
    DecisionStep(cfg, states[i - 1], steps[i - 1], states[i]);
    if steps[i - 1] == ByCloser(ReadPoll) {
      k := i - 1;
    } else {
      k := LastDecision(cfg, states, steps, i - 1);
    }
  }

  lemma NoDecisionYet()
    ensures !Init().closer.Decide?
  {
  }

  /** The closer goes by its last poll: it is finished exactly if the player was done then, it
      settles for the tail exactly if the player was playing and at the tail, and it gives up or
      polls again exactly if neither was so. */
  lemma DecidesByLastPoll(cfg: Config, states: seq<State>, steps: seq<Step>, i: nat) returns (k: nat)
    requires Execution(cfg, states, steps) && i < |steps| && states[i].closer.Decide?
    ensures k < i && steps[k] == ByCloser(ReadPoll) && forall j :: k < j < i ==> steps[j] != ByCloser(ReadPoll)
    ensures var poll, now := states[k], states[i + 1].closer;
            var tail := poll.playing && poll.totalIn <= poll.totalOut + cfg.tolerance;
            now != states[i].closer ==>
              && (now.Final? <==> poll.done)
              && (now.Tail? <==> !poll.done && tail)
              && (now.Kill? || now.Poll? <==> !poll.done && !tail)
  {
    hide ProducerStep, PlayerStep, CloserStep;
    k := LastDecision(cfg, states, steps, i);
    var s, t := states[i], states[i + 1];
    assert Next(cfg, s, steps[i], t);
    match steps[i]
    case ByProducer(a) => ProducerLeavesCloser(cfg, s, a, t);
    case ByPlayer(a) => PlayerKeepsFrame(cfg, s, a, t);
    case ByCloser(a) => {
      DecisionByCloser(cfg, s, a, t);
      if t.closer != s.closer { Decides(cfg, s, a, t); }
    }
  }

  // ---------------------------------------------------------------- errors

  predicate Declined(s: State) {
    s.result == EspFail || s.player.Refused? || s.player.Failure?
  }

  predicate GivenUp(s: State) {
    s.result == EspTimeout || s.closer.Kill? || s.closer.Killed?
  }

  lemma ErrorByProducer(cfg: Config, s: State, a: ProducerAction, t: State)
    requires Life(s) && ProducerStep(cfg, s, a, t)
    ensures (Declined(t) ==> Declined(s)) && (GivenUp(t) ==> GivenUp(s))
    ensures t.codecOpen == s.codecOpen && t.closer == s.closer && t.result == s.result
  {
    hide AfterResult;
    match a
    case EnterWrite(_) => case WriteRefused(_) => case TaskRefused => case StartPlayer => case PlayerRuns =>
    case LockIn => case DropStamp => case RingSend => case RingFull => case AddCount =>
  }

  lemma RefusalByPlayer(cfg: Config, s: State, a: PlayerAction, t: State)
    requires PlayerStep(cfg, s, a, t)
    ensures s.codecOpen && (t.player.Refused? || t.player.Failure?) ==>
              s.player.Refused? || s.player.Failure? || a == CodecWrite(false)
  {
    hide Level, CopySize, Over;
    match a
    case PassGate => case LockPlayer => case CheckGate => case DropStall => case RingReceive(_) => case RingEmpty =>
    case CheckStarved => case CopyBytes => case ReturnItem => case CodecWrite(_) => case DropWrite =>
    case AddCounter => case StoreResult => case LeaveLoop => case SetDone =>
  }

  lemma ResultByPlayer(cfg: Config, s: State, a: PlayerAction, t: State)
    requires PlayerStep(cfg, s, a, t)
    ensures t.result == s.result || (s.player.Failure? && t.result == EspFail)
  {
    hide Level, CopySize, GateNext, Over, PlayerFrame;
    match a
    case PassGate => case LockPlayer => case CheckGate => case DropStall => case RingReceive(_) => case RingEmpty =>
    case CheckStarved => case CopyBytes => case ReturnItem => case CodecWrite(_) => case DropWrite =>
    case AddCounter => case StoreResult => case LeaveLoop => case SetDone =>
  }

  lemma CodecByPlayer(cfg: Config, s: State, a: PlayerAction, t: State)
    requires PlayerStep(cfg, s, a, t)
    ensures t.codecOpen == s.codecOpen
  {
    hide Level, CopySize, GateNext, Over, PlayerFrame, PlayerWants;
    match a
    case PassGate => case LockPlayer => case CheckGate => case DropStall => case RingReceive(_) => case RingEmpty =>
    case CheckStarved => case CopyBytes => case ReturnItem => case CodecWrite(_) => case DropWrite =>
    case AddCounter => case StoreResult => case LeaveLoop => case SetDone =>
  }

  lemma ResultByCloser(cfg: Config, s: State, a: CloserAction, t: State)
    requires CloserStep(cfg, s, a, t)
    ensures t.player == s.player && (t.result == s.result || t.result == EspOk || a == MarkTimeout)
    ensures a == MarkTimeout ==> s.closer.Killed? && t.result == EspTimeout
  {
    hide Level, Waiting, CloserWants;
    match a
    case DeleteProducer => case LockCloser => case AskToStop => case ReadPoll => case SeeDone => case SeeTail =>
    case GiveUp => case PollAgain => case AcceptTail => case DeletePlayer => case MarkTimeout => case Cleanup(_) =>
  }

  lemma KillByCloser(cfg: Config, s: State, a: CloserAction, t: State)
    requires CloserStep(cfg, s, a, t)
    ensures t.closer.Kill? || t.closer.Killed? ==> s.closer.Kill? || s.closer.Killed? || a == GiveUp
  {
    hide Level, Waiting, CloserWants;
    match a
    case DeleteProducer => case LockCloser => case AskToStop => case ReadPoll => case SeeDone => case SeeTail =>
    case GiveUp => case PollAgain => case AcceptTail => case DeletePlayer => case MarkTimeout => case Cleanup(_) =>
  }

  lemma ReturnByCloser(cfg: Config, s: State, a: CloserAction, t: State)
    requires CloserStep(cfg, s, a, t)
    ensures t.codecOpen != s.codecOpen ==> t.closer.Returned?
    ensures s.closer.Returned? ==> t.closer == s.closer
    ensures t.closer.Returned? && !s.closer.Returned? ==> a.Cleanup?
  {
    hide Level, Waiting, CloserWants;
    match a
    case DeleteProducer => case LockCloser => case AskToStop => case ReadPoll => case SeeDone => case SeeTail =>
    case GiveUp => case PollAgain => case AcceptTail => case DeletePlayer => case MarkTimeout => case Cleanup(_) =>
  }

  lemma CleanupReturns(cfg: Config, s: State, codecClosed: bool, t: State)
    requires CloserStep(cfg, s, Cleanup(codecClosed), t)
    ensures !s.closer.Returned?
    ensures t.closer == Returned(if s.result != EspOk then s.result else if codecClosed then EspOk else EspFail)
  {
    hide Waiting;
  }

  /** Every error in the state has its step. */
  ghost predicate Explained(s: State, steps: seq<Step>, i: nat) {
    && (s.closer.Returned? || s.codecOpen)
    && (!s.closer.Returned? && Declined(s) ==> Took(steps, i, ByPlayer(CodecWrite(false))))
    && (!s.closer.Returned? && GivenUp(s) ==> Took(steps, i, ByCloser(GiveUp)))
    && (s.closer == Returned(EspFail) ==>
          Took(steps, i, ByPlayer(CodecWrite(false))) || Took(steps, i, ByCloser(Cleanup(false))))
    && (s.closer == Returned(EspTimeout) ==> Took(steps, i, ByCloser(GiveUp)))
    && (s.closer == Returned(EspOk) || !s.closer.Returned? ==> !Took(steps, i, ByCloser(Cleanup(false))))
  }

  lemma TookMore(steps: seq<Step>, i: nat)
    requires i < |steps|
    ensures Took(steps, i + 1, steps[i])
    ensures forall step :: Took(steps, i + 1, step) <==> Took(steps, i, step) || step == steps[i]
  {
  }

  lemma NothingTook(steps: seq<Step>)
    ensures forall step :: !Took(steps, 0, step)
  {
  }

  lemma {:induction false} RunExplained(cfg: Config, states: seq<State>, steps: seq<Step>, i: nat)
    requires Execution(cfg, states, steps) && i <= |steps|
    ensures Explained(states[i], steps, i)
    decreases i
  {
    hide ProducerStep, PlayerStep, CloserStep, Inv, Took;
    NothingTook(steps);
    if i > 0 {
      RunExplained(cfg, states, steps, i - 1);
      InitInv(cfg);
      RunKeeps(cfg, states, steps, i - 1);
      TookMore(steps, i - 1);
      var s, t := states[i - 1], states[i];
      assert Next(cfg, s, steps[i - 1], t);
      match steps[i - 1]
      case ByProducer(a) =>
        LifeOf(cfg, s);
        ErrorByProducer(cfg, s, a, t);
      case ByPlayer(a) =>
        RefusalByPlayer(cfg, s, a, t);
        ResultByPlayer(cfg, s, a, t);
        CodecByPlayer(cfg, s, a, t);
        PlayerKeepsFrame(cfg, s, a, t);
      case ByCloser(a) =>
        ResultByCloser(cfg, s, a, t);
        KillByCloser(cfg, s, a, t);
        ReturnByCloser(cfg, s, a, t);
        if a.Cleanup? { CleanupReturns(cfg, s, a.codecClosed, t); }
    }
  }

  /** The close returns an error only for a reason: ESP_FAIL if the codec refused a block or did
      not close, ESP_ERR_TIMEOUT if the closer gave up waiting for the player; and ESP_OK only if
      the codec closed. */
  lemma CloseErrorHasCause(cfg: Config, states: seq<State>, steps: seq<Step>, i: nat)
    requires Execution(cfg, states, steps) && i <= |steps|
    ensures states[i].closer == Returned(EspFail) ==>
              exists k :: 0 <= k < i && steps[k] in {ByPlayer(CodecWrite(false)), ByCloser(Cleanup(false))}
    ensures states[i].closer == Returned(EspTimeout) ==> exists k :: 0 <= k < i && steps[k] == ByCloser(GiveUp)
    ensures states[i].closer == Returned(EspOk) ==> forall k :: 0 <= k < i ==> steps[k] != ByCloser(Cleanup(false))
  {
    RunExplained(cfg, states, steps, i);
    assert |steps| >= i && forall k :: 0 <= k < i ==> Took(steps, i, steps[k]);
    hide Execution;
  }
}

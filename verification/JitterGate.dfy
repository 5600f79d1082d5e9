/** The prebuffer and the rebuffer gate of the playback jitter buffer: when the player takes bytes,
    waits, or leaves its loop. */
module JitterGate {
  import opened Bytes
  import opened JitterBuffer

  /** At least so many bytes are counted in and not yet out. */
  predicate Filled(s: State, target: nat) {
    target == 0 || s.totalIn >= s.totalOut + target
  }

  /** One look at the gate under the mutex: the player leaves exactly if the stream is being
      closed and everything counted is out; otherwise it goes on exactly if the stream is being
      closed or the level has reached the target, and waits if not. */
  lemma GateOpensExactlyWhen(cfg: Config, s: State, t: State)
    requires Next(cfg, s, ByPlayer(CheckGate), t)
    ensures var over := !s.started && s.totalIn <= s.totalOut;
            var full := if s.rebuffering then Filled(s, cfg.rebuffer) else Filled(s, cfg.prebuffer);
            && (t.player.LoopExit? <==> over)
            && (t.player.Receive? <==> !over && (!s.started || full))
            && (t.player.Stall? <==> s.started && !full && s.rebuffering)
            && (t.player.Gate? <==> s.started && !full && !s.rebuffering)
            && (t.prebuffered <==> s.prebuffered || t.player.Receive?)
            && (t.rebuffering <==> s.rebuffering && !t.player.Receive?)
  {
  }

  /** After a receive that timed out the player leaves exactly if the stream is being closed and
      everything counted is out; while the stream plays, it starts to rebuffer. */
  lemma StarvingExactlyWhen(cfg: Config, s: State, t: State)
    requires Next(cfg, s, ByPlayer(CheckStarved), t)
    ensures var over := !s.started && s.totalIn <= s.totalOut;
            && (t.player.LoopExit? <==> over) && (t.player.Gate? <==> !over)
            && (t.rebuffering <==> s.rebuffering || (s.started && s.playing))
  {
  }

  lemma GateByPlayer(cfg: Config, s: State, a: PlayerAction, t: State)
    requires PlayerStep(cfg, s, a, t)
    ensures s.player.Gate? && t.player.Receive? ==> a == CheckGate || (s.prebuffered && !s.rebuffering)
    ensures t.prebuffered && !s.prebuffered ==> a == CheckGate && t.player.Receive?
    ensures !s.prebuffered && t.player != s.player && (s.player.Gate? || s.player.NotCreated?) ==> a == CheckGate
    ensures t.codec != s.codec ==> !s.player.Gate? && !s.player.NotCreated?
    ensures t.enqueued == s.enqueued && t.closer == s.closer && (s.prebuffered ==> t.prebuffered)
    ensures t.rebuffering && !s.rebuffering ==> s.player.Starved?
  {
    hide Level, CopySize, GateNext, Over;
    match a
    case PassGate => case LockPlayer => case CheckGate => case DropStall => case RingReceive(_) => case RingEmpty =>
    case CheckStarved => case CopyBytes => case ReturnItem => case CodecWrite(_) => case DropWrite =>
    case AddCounter => case StoreResult => case LeaveLoop => case SetDone =>
  }

  lemma GateByProducer(cfg: Config, s: State, a: ProducerAction, t: State)
    requires Life(s) && ProducerStep(cfg, s, a, t)
    ensures t.prebuffered == s.prebuffered && t.codec == s.codec && |t.enqueued| >= |s.enqueued|
    ensures t.closer == s.closer && t.rebuffering == s.rebuffering
    ensures t.player == s.player || (s.player.NotCreated? && t.player.Gate?)
  {
    hide AfterResult;
    match a
    case EnterWrite(_) => case WriteRefused(_) => case TaskRefused => case StartPlayer => case PlayerRuns =>
    case LockIn => case DropStamp => case RingSend => case RingFull => case AddCount =>
  }

  lemma GateByCloser(cfg: Config, s: State, a: CloserAction, t: State)
    requires CloserStep(cfg, s, a, t)
    ensures t.prebuffered == s.prebuffered && t.codec == s.codec && t.enqueued == s.enqueued && t.player == s.player
    ensures t.rebuffering == s.rebuffering && (t.closer.Begin? ==> s.closer.Begin?)
  {
    hide Level, Waiting, CloserWants;
    match a
    case DeleteProducer => case LockCloser => case AskToStop => case ReadPoll => case SeeDone => case SeeTail =>
    case GiveUp => case PollAgain => case AcceptTail => case DeletePlayer => case MarkTimeout => case Cleanup(_) =>
  }

  /** The player passes the gate only with a full enough buffer, except when the stream is being
      closed or nothing made it wait. */
  lemma ReceivesOnlyWhenFull(cfg: Config, states: seq<State>, steps: seq<Step>, i: nat)
    requires Execution(cfg, states, steps) && i < |steps|
    requires states[i].player.Gate? && states[i + 1].player.Receive?
    ensures var s := states[i];
            || (s.prebuffered && !s.rebuffering) || !s.started
            || (if s.rebuffering then Filled(s, cfg.rebuffer) else Filled(s, cfg.prebuffer))
  {
    hide ProducerStep, PlayerStep, CloserStep, Inv;
    InitInv(cfg);
    RunKeeps(cfg, states, steps, i);
    var s, t := states[i], states[i + 1];
    assert Next(cfg, s, steps[i], t);
    match steps[i]
    case ByProducer(a) =>
      LifeOf(cfg, s);
      GateByProducer(cfg, s, a, t);
    case ByPlayer(a) =>
      GateByPlayer(cfg, s, a, t);
      if a == CheckGate { GateOpensExactlyWhen(cfg, s, t); }
    case ByCloser(a) =>
      GateByCloser(cfg, s, a, t);
  }

  /** Before the close: a player that has not been through the gate has taken nothing, and it goes
      through only once enough has come in. */
  predicate Held(cfg: Config, s: State) {
    s.closer.Begin? ==>
      if s.prebuffered then |s.enqueued| >= cfg.prebuffer
      else s.codec == [] && !s.rebuffering && (s.player.NotCreated? || s.player.Gate?)
  }

  lemma PlayerHeld(cfg: Config, s: State, a: PlayerAction, t: State)
    requires Inv(cfg, s) && Held(cfg, s) && PlayerStep(cfg, s, a, t)
    ensures Held(cfg, t)
  {
    CountedIn(cfg, s);
    hide Inv, PlayerStep;
    GateByPlayer(cfg, s, a, t);
    if a == CheckGate {
      GateOpensExactlyWhen(cfg, s, t);
      NoCloseKeepsRunning(cfg, s, t);
    }
  }

  lemma CountedIn(cfg: Config, s: State)
    requires Inv(cfg, s) && !s.closer.Returned?
    ensures s.totalIn <= |s.enqueued|
    ensures s.closer.Begin? && !s.player.NotCreated? ==> s.started
  {
  }

  lemma NoCloseKeepsRunning(cfg: Config, s: State, t: State)
    requires PlayerStep(cfg, s, CheckGate, t)
    ensures s.player.Gate? && t.codec == s.codec
  {
  }

  lemma {:induction false} RunHeld(cfg: Config, states: seq<State>, steps: seq<Step>, i: nat)
    requires Execution(cfg, states, steps) && i <= |steps|
    ensures Held(cfg, states[i])
    decreases i
  {
    hide ProducerStep, PlayerStep, CloserStep, Inv;
    if i > 0 {
      RunHeld(cfg, states, steps, i - 1);
      InitInv(cfg);
      RunKeeps(cfg, states, steps, i - 1);
      var s, t := states[i - 1], states[i];
      assert Next(cfg, s, steps[i - 1], t);
      match steps[i - 1]
      case ByProducer(a) =>
        LifeOf(cfg, s);
        GateByProducer(cfg, s, a, t);
      case ByPlayer(a) =>
        if s.closer.Begin? { PlayerHeld(cfg, s, a, t); } else { GateByPlayer(cfg, s, a, t); }
      case ByCloser(a) =>
        GateByCloser(cfg, s, a, t);
    }
  }

  /** Until the close begins, nothing is played before the prebuffer has come in. */
  lemma NothingPlaysBeforePrebuffer(cfg: Config, states: seq<State>, steps: seq<Step>, i: nat)
    requires Execution(cfg, states, steps) && i <= |steps| && states[i].closer.Begin?
    ensures |states[i].enqueued| < cfg.prebuffer ==> states[i].codec == [] && states[i].item == []
  {
    hide Next, Inv;
    RunHeld(cfg, states, steps, i);
    InitInv(cfg);
    RunKeeps(cfg, states, steps, i);
    if |states[i].enqueued| < cfg.prebuffer {
      NothingInHand(cfg, states[i]);
    }
  }

  lemma NothingInHand(cfg: Config, s: State)
    requires Inv(cfg, s) && s.closer.Begin? && (s.player.NotCreated? || s.player.Gate?)
    ensures s.item == []
  {
    hide Conserved;
  }

  // ---------------------------------------------------------------- the producer

  lemma Entered(cfg: Config, s: State, a: ProducerAction, t: State)
    requires s.producer.Enter? && ProducerStep(cfg, s, a, t)
    ensures a.WriteRefused? || a == TaskRefused || a == StartPlayer || a == PlayerRuns
  {
    match a
    case EnterWrite(_) => case WriteRefused(_) => case TaskRefused => case StartPlayer => case PlayerRuns =>
    case LockIn => case DropStamp => case RingSend => case RingFull => case AddCount =>
  }

  lemma RefusedWrite(cfg: Config, s: State, a: ProducerAction, t: State)
    requires s.producer.Enter? && ProducerStep(cfg, s, a, t) && (a.WriteRefused? || a == TaskRefused)
    ensures t.producer.Idle? && t.ring == s.ring && t.enqueued == s.enqueued
  {
  }

  lemma AdmittedWrite(cfg: Config, s: State, a: ProducerAction, t: State)
    requires s.producer.Enter? && ProducerStep(cfg, s, a, t) && (a == StartPlayer || a == PlayerRuns)
    ensures t.producer == (if s.result == EspOk then Stamp(s.producer.chunk) else Idle)
    ensures s.codecOpen && t.started && t.ringExists && (s.started || t.player.Gate?)
    ensures t.ring == s.ring && t.enqueued == s.enqueued
  {
  }

  /** The first section of a write goes on exactly if the codec is open, the player runs or could be
      created, and has reported no error; otherwise the write ends without having sent anything. */
  lemma WriteGoesOnExactlyWhen(cfg: Config, s: State, a: ProducerAction, t: State)
    requires s.producer.Enter? && ProducerStep(cfg, s, a, t)
    ensures t.producer == Stamp(s.producer.chunk) || (t.producer.Idle? && t.ring == s.ring && t.enqueued == s.enqueued)
    ensures t.producer.Stamp? <==> s.codecOpen && s.result == EspOk && (a == StartPlayer || a == PlayerRuns)
    ensures t.producer.Stamp? ==> t.started && t.ringExists && (s.started || t.player.Gate?)
  {
    hide ProducerStep;
    Entered(cfg, s, a, t);
    if a == StartPlayer || a == PlayerRuns {
      AdmittedWrite(cfg, s, a, t);
    } else {
      RefusedWrite(cfg, s, a, t);
    }
  }

  // ---------------------------------------------------------------- the ring

  /** The ring never holds more than its capacity; what the player has taken out counts until it
      is given back. */
  predicate Fits(cfg: Config, s: State) {
    |s.ring| + s.itemSize <= cfg.capacity
  }

  lemma ProducerFits(cfg: Config, s: State, a: ProducerAction, t: State)
    requires Fits(cfg, s) && ProducerStep(cfg, s, a, t)
    ensures Fits(cfg, t)
  {
    hide AfterResult;
    match a
    case EnterWrite(_) => case WriteRefused(_) => case TaskRefused => case StartPlayer => case PlayerRuns =>
    case LockIn => case DropStamp => case RingSend => case RingFull => case AddCount =>
  }

  /** Where the player can still hold a piece of the ring. */
  predicate Holds(s: State) {
    s.itemSize > 0 ==> !s.player.Receive? && !s.player.Gate? && !s.player.Starved? && !s.player.Stall?
  }

  lemma PlayerFits(cfg: Config, s: State, a: PlayerAction, t: State)
    requires Fits(cfg, s) && Holds(s) && PlayerStep(cfg, s, a, t)
    ensures Fits(cfg, t)
  {
    hide Level, CopySize, PlayerFrame, Over, GateNext;
    match a
    case PassGate => case LockPlayer => case CheckGate => case DropStall => case RingReceive(_) => case RingEmpty =>
    case CheckStarved => case CopyBytes => case ReturnItem => case CodecWrite(_) => case DropWrite =>
    case AddCounter => case StoreResult => case LeaveLoop => case SetDone =>
  }

  lemma PlayerHolds(cfg: Config, s: State, a: PlayerAction, t: State)
    requires Holds(s) && PlayerStep(cfg, s, a, t)
    ensures Holds(t)
  {
    hide Level, CopySize, PlayerFrame, Over;
    match a
    case PassGate => case LockPlayer => case CheckGate => case DropStall => case RingReceive(_) => case RingEmpty =>
    case CheckStarved => case CopyBytes => case ReturnItem => case CodecWrite(_) => case DropWrite =>
    case AddCounter => case StoreResult => case LeaveLoop => case SetDone =>
  }

  lemma CloserFits(cfg: Config, s: State, a: CloserAction, t: State)
    requires Fits(cfg, s) && CloserStep(cfg, s, a, t)
    ensures Fits(cfg, t) && t.itemSize == s.itemSize && t.player == s.player
  {
    hide Level, Waiting, CloserWants;
    match a
    case DeleteProducer => case LockCloser => case AskToStop => case ReadPoll => case SeeDone => case SeeTail =>
    case GiveUp => case PollAgain => case AcceptTail => case DeletePlayer => case MarkTimeout => case Cleanup(_) =>
  }

  lemma ProducerLeavesItem(cfg: Config, s: State, a: ProducerAction, t: State)
    requires ProducerStep(cfg, s, a, t)
    ensures t.itemSize == s.itemSize
  {
    hide AfterResult;
    match a
    case EnterWrite(_) => case WriteRefused(_) => case TaskRefused => case StartPlayer => case PlayerRuns =>
    case LockIn => case DropStamp => case RingSend => case RingFull => case AddCount =>
  }

  lemma ProducerHolds(cfg: Config, s: State, a: ProducerAction, t: State)
    requires Life(s) && Holds(s) && ProducerStep(cfg, s, a, t)
    requires s.player.NotCreated? ==> s.itemSize == 0
    ensures Holds(t) && t.itemSize == s.itemSize
    ensures t.player.NotCreated? ==> s.player.NotCreated?
  {
    hide Life, ProducerStep;
    ProducerLeavesItem(cfg, s, a, t);
    GateByProducer(cfg, s, a, t);
  }

  lemma PlayerIsCreated(cfg: Config, s: State, a: PlayerAction, t: State)
    requires PlayerStep(cfg, s, a, t)
    ensures !s.player.NotCreated? && !t.player.NotCreated?
  {
    hide Level, CopySize, PlayerFrame;
    match a
    case PassGate => case LockPlayer => case CheckGate => case DropStall => case RingReceive(_) => case RingEmpty =>
    case CheckStarved => case CopyBytes => case ReturnItem => case CodecWrite(_) => case DropWrite =>
    case AddCounter => case StoreResult => case LeaveLoop => case SetDone =>
  }

  lemma {:induction false} RingFits(cfg: Config, states: seq<State>, steps: seq<Step>, i: nat)
    requires Execution(cfg, states, steps) && i <= |steps|
    ensures |states[i].ring| + states[i].itemSize <= cfg.capacity
    ensures Holds(states[i]) && (states[i].player.NotCreated? ==> states[i].itemSize == 0)
    decreases i
  {
    hide ProducerStep, PlayerStep, CloserStep, Inv, Holds;
    if i == 0 {
      assert Holds(Init()) by { InitHolds(); }
    } else {
      RingFits(cfg, states, steps, i - 1);
      InitInv(cfg);
      RunKeeps(cfg, states, steps, i - 1);
      var s, t := states[i - 1], states[i];
      assert Next(cfg, s, steps[i - 1], t);
      match steps[i - 1]
      case ByProducer(a) =>
        LifeOf(cfg, s);
        ProducerFits(cfg, s, a, t);
        ProducerHolds(cfg, s, a, t);
      case ByPlayer(a) =>
        PlayerFits(cfg, s, a, t);
        PlayerHolds(cfg, s, a, t);
        PlayerIsCreated(cfg, s, a, t);
      case ByCloser(a) =>
        CloserFits(cfg, s, a, t);
        assert Holds(t) by { SameHold(s, t); }
    }
  }

  lemma InitHolds()
    ensures Holds(Init())
  {
  }

  lemma SameHold(s: State, t: State)
    requires Holds(s) && t.itemSize == s.itemSize && t.player == s.player
    ensures Holds(t)
  {
  }
}

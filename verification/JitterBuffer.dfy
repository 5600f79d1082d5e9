/** The playback jitter buffer: a producer fills a byte ring, the player task drains it
    block by block into the codec, and a closer ends the stream and may delete the
    player. One atomic action per lock acquisition, per locked section and per ring or
    codec call; any task may run between two actions. */
module JitterBuffer {
  import opened Bytes

  /** Sizes from the build configuration. */
  datatype Config = Config(capacity: nat, block: nat, prebuffer: nat, rebuffer: nat, tolerance: nat) {
    predicate Valid() {
      0 < block <= capacity && prebuffer <= capacity && rebuffer <= capacity
    }
  }

  datatype Task = Producer | Player | Closer

  datatype Code = EspOk | EspFail | EspTimeout

  /** Where the player is; `Written` and `Refused` lie inside the codec's locked section. */
  datatype PlayerAt =
    | NotCreated | Gate | Stall | Receive | Starved | Copy
    | Write | Written | Refused | Count | Failure | LoopExit | Finish | Gone

  datatype ProducerAt =
    | Idle
    | Enter(chunk: seq<Byte>) | Stamp(chunk: seq<Byte>) | Send(chunk: seq<Byte>)
    | CountIn(sent: nat)

  datatype CloserAt =
    | Begin | Poll | Decide(sawDone: bool, sawTail: bool) | Tail | Kill | Killed | Final
    | Returned(code: Code)

  /** Why the closer stopped waiting. */
  datatype Cause = Pending | NoTask | Completed | TailAccepted | ForcedDelete

  datatype State = State(
    // the mutex: its owner, and for each task whether it is inside a locked section
    lock: Option<Task>, playerIn: bool, producerIn: bool, closerIn: bool,
    // the shared record
    codecOpen: bool, started: bool, done: bool, hasTask: bool, playing: bool, result: Code,
    totalIn: nat, totalOut: nat,
    // the ring, and the player's own variables
    ringExists: bool, ring: seq<Byte>, itemSize: nat, item: seq<Byte>, scratch: seq<Byte>,
    prebuffered: bool, rebuffering: bool, afterLoop: bool,
    // where each task is
    player: PlayerAt, playerAlive: bool, producer: ProducerAt, producerAlive: bool, closer: CloserAt,
    // history
    enqueued: seq<Byte>, codec: seq<Byte>, lost: seq<Byte>,
    writeFailed: bool, cause: Cause, producerLate: bool, deletedInside: bool)

  /** The stream right after it was opened. */
  function Init(): State {
    State(None, false, false, false,
          true, false, true, false, false, EspOk, 0, 0,
          false, [], 0, [], [], false, false, false,
          NotCreated, true, Idle, true, Begin,
          [], [], [], false, Pending, false, false)
  }

  /** The fill level the code computes: it never goes below zero. */
  function Level(s: State): nat {
    if s.totalIn < s.totalOut then 0 else s.totalIn - s.totalOut
  }

  // ---------------------------------------------------------------- producer

  datatype ProducerAction =
    | EnterWrite(chunk: seq<Byte>)
    | WriteRefused(ringCreated: bool)
    | TaskRefused
    | StartPlayer
    | PlayerRuns
    | LockIn
    | DropStamp
    | RingSend
    | RingFull
    | AddCount

  predicate ProducerWants(p: ProducerAt) {
    p.Stamp? || p.CountIn?
  }

  /** The call goes on unless the player has reported an error. */
  function AfterResult(s: State): ProducerAt
    requires s.producer.Enter?
  {
    if s.result == EspOk then Stamp(s.producer.chunk) else Idle
  }

  /** `audio_out_write_pcm_chunk_buffered`. A new call does not begin once a close has. */
  predicate ProducerStep(cfg: Config, s: State, a: ProducerAction, t: State) {
    s.producerAlive &&
    match a
    case EnterWrite(chunk) =>
      && s.producer.Idle? && s.closer.Begin? && !s.closerIn && s.lock.None? && chunk != []
      && t == s.(producer := Enter(chunk), producerIn := true, lock := Some(Producer))
    case WriteRefused(ringCreated) =>
      && s.producer.Enter? && (!s.codecOpen || !(s.ringExists || ringCreated))
      && t == s.(producer := Idle, producerIn := false, lock := None)
    case TaskRefused =>
      && s.producer.Enter? && s.codecOpen && !s.started
      && t == s.(producer := Idle, producerIn := false, lock := None,
                 ringExists := true, hasTask := false, done := true)
    case StartPlayer =>
      && s.producer.Enter? && s.codecOpen && !s.started
      && t == s.(producer := AfterResult(s), producerIn := false, lock := None, ringExists := true,
                 started := true, done := false, hasTask := true, player := Gate)
    case PlayerRuns =>
      && s.producer.Enter? && s.codecOpen && s.started
      && t == s.(producer := AfterResult(s), producerIn := false, lock := None, ringExists := true)
    case LockIn =>
      && ProducerWants(s.producer) && !s.producerIn && s.lock.None?
      && t == s.(producerIn := true, lock := Some(Producer))
    case DropStamp =>
      && s.producer.Stamp? && s.producerIn
      && t == s.(producer := Send(s.producer.chunk), producerIn := false, lock := None)
    case RingSend =>
      && s.producer.Send? && s.ringExists && |s.ring| + s.itemSize + |s.producer.chunk| <= cfg.capacity
      && t == s.(producer := CountIn(|s.producer.chunk|),
                 ring := s.ring + s.producer.chunk, enqueued := s.enqueued + s.producer.chunk)
    case RingFull =>
      s.producer.Send? && t == s.(producer := Idle)
    case AddCount =>
      && s.producer.CountIn? && s.producerIn
      && t == s.(producer := Idle, producerIn := false, lock := None, totalIn := s.totalIn + s.producer.sent)
  }

  // ---------------------------------------------------------------- player

  datatype PlayerAction =
    | PassGate
    | LockPlayer
    | CheckGate
    | DropStall
    | RingReceive(n: nat)
    | RingEmpty
    | CheckStarved
    | CopyBytes
    | ReturnItem
    | CodecWrite(accepted: bool)
    | DropWrite
    | AddCounter
    | StoreResult
    | LeaveLoop
    | SetDone

  /** The player's next action is to take the mutex. */
  predicate PlayerWants(s: State) {
    || (s.player.Gate? && (!s.prebuffered || s.rebuffering))
    || s.player.Stall? || s.player.Starved? || s.player.Write? || s.player.Count?
    || s.player.Failure? || s.player.Finish?
  }

  /** The stream is being closed and the level is zero. */
  predicate Over(s: State) {
    !s.started && Level(s) == 0
  }

  /** Prebuffer and rebuffer gate: leave, go on, or wait. */
  function GateNext(cfg: Config, s: State): PlayerAt {
    if Over(s) then LoopExit
    else if !s.started || Level(s) >= (if s.rebuffering then cfg.rebuffer else cfg.prebuffer) then Receive
    else if s.rebuffering then Stall
    else Gate
  }

  /** As much of the item as the scratch block takes. */
  function CopySize(cfg: Config, s: State): (n: nat)
    ensures n <= |s.item| && (|s.scratch| <= cfg.block ==> |s.scratch| + n <= cfg.block)
  {
    if |s.scratch| + |s.item| <= cfg.block then |s.item|
    else if |s.scratch| <= cfg.block then cfg.block - |s.scratch|
    else 0
  }

  /** What the player never touches. */
  predicate PlayerFrame(s: State, t: State) {
    && t.producer == s.producer && t.producerIn == s.producerIn && t.producerAlive == s.producerAlive
    && t.enqueued == s.enqueued && t.deletedInside == s.deletedInside
    && t.closer == s.closer && t.closerIn == s.closerIn && t.cause == s.cause
  }

  /** `audio_stream_task`. */
  predicate PlayerStep(cfg: Config, s: State, a: PlayerAction, t: State) {
    s.playerAlive && PlayerFrame(s, t) &&
    match a
    case LockPlayer =>
      PlayerWants(s) && !s.playerIn && s.lock.None? && t == s.(playerIn := true, lock := Some(Player))
    case PassGate =>
      s.player.Gate? && s.prebuffered && !s.rebuffering && t == s.(player := Receive)
    case CheckGate =>
      && s.player.Gate? && s.playerIn
      && t == s.(playerIn := false, lock := None, player := GateNext(cfg, s),
                 rebuffering := s.rebuffering && !GateNext(cfg, s).Receive?,
                 prebuffered := s.prebuffered || GateNext(cfg, s).Receive?)
    case DropStall =>
      s.player.Stall? && s.playerIn && t == s.(playerIn := false, lock := None, player := Gate)
    case RingReceive(n) =>
      && s.player.Receive? && s.ringExists && 0 < n <= |s.ring|
      && t == s.(player := Copy, item := s.ring[..n], itemSize := n, ring := s.ring[n..])
    case RingEmpty =>
      s.player.Receive? && t == s.(player := Starved)
    case CheckStarved =>
      && s.player.Starved? && s.playerIn
      && t == s.(playerIn := false, lock := None, player := if Over(s) then LoopExit else Gate,
                 rebuffering := s.rebuffering || (!Over(s) && s.playing && s.started))
    case CopyBytes =>
      && s.player.Copy? && s.item != [] && |s.scratch| < cfg.block
      && t == s.(scratch := s.scratch + s.item[..CopySize(cfg, s)], item := s.item[CopySize(cfg, s)..],
                 player := if |s.scratch| + CopySize(cfg, s) == cfg.block then Write else Copy)
    case ReturnItem =>
      s.player.Copy? && s.item == [] && t == s.(player := Gate, itemSize := 0)
    case CodecWrite(accepted) =>
      && s.player.Write? && s.playerIn
      && (var taken := accepted && s.codecOpen;
          t == s.(player := if taken then Written else Refused,
                  codec := if taken then s.codec + s.scratch else s.codec,
                  writeFailed := s.writeFailed || !taken))
    case DropWrite =>
      && (s.player.Written? || s.player.Refused?)
      && t == s.(playerIn := false, lock := None, player := if s.player.Written? then Count else Failure)
    case AddCounter =>
      && s.player.Count? && s.playerIn
      && t == s.(playerIn := false, lock := None, player := if s.afterLoop then Finish else Copy,
                 playing := true, totalOut := s.totalOut + |s.scratch|, scratch := [])
    case StoreResult =>
      && s.player.Failure? && s.playerIn
      && t == s.(playerIn := false, lock := None, player := Finish, result := EspFail)
    case LeaveLoop =>
      && s.player.LoopExit?
      && t == s.(afterLoop := true, player := if s.scratch != [] then Write else Finish)
    case SetDone =>
      && s.player.Finish? && s.playerIn
      && t == s.(playerIn := false, lock := None, player := Gone, done := true)
  }

  // ---------------------------------------------------------------- closer

  datatype CloserAction =
    | DeleteProducer
    | LockCloser
    | AskToStop
    | ReadPoll
    | SeeDone
    | SeeTail
    | GiveUp
    | PollAgain
    | AcceptTail
    | DeletePlayer
    | MarkTimeout
    | Cleanup(codecClosed: bool)

  predicate CloserWants(c: CloserAt) {
    c.Begin? || c.Poll? || c.Tail? || c.Killed? || c.Final?
  }

  /** `audio_out_close_pcm_stream_with_metrics`, and before it the join timeout of the downlink,
      which deletes the producer wherever it is. Deleting a player that has already ended has no
      effect. */
  predicate CloserStep(cfg: Config, s: State, a: CloserAction, t: State) {
    match a
    case DeleteProducer =>
      s.closer.Begin? && !s.closerIn && t == s.(producerAlive := false)
    case LockCloser =>
      CloserWants(s.closer) && !s.closerIn && s.lock.None? && t == s.(closerIn := true, lock := Some(Closer))
    case AskToStop =>
      && s.closer.Begin? && s.closerIn
      && t == s.(closer := if s.hasTask then Poll else Final,
                 closerIn := !s.hasTask, lock := if s.hasTask then None else s.lock,
                 started := s.started && !s.hasTask,
                 cause := if s.hasTask then Pending else NoTask, producerLate := !s.producer.Idle?)
    case ReadPoll =>
      && s.closer.Poll? && s.closerIn
      && t == s.(closer := Decide(s.done, s.playing && Level(s) <= cfg.tolerance), closerIn := false, lock := None)
    case SeeDone =>
      s.closer.Decide? && s.closer.sawDone && t == s.(closer := Final, cause := Completed)
    case SeeTail =>
      s.closer.Decide? && !s.closer.sawDone && s.closer.sawTail && t == s.(closer := Tail)
    case GiveUp =>
      s.closer.Decide? && !s.closer.sawDone && !s.closer.sawTail && t == s.(closer := Kill)
    case PollAgain =>
      s.closer.Decide? && !s.closer.sawDone && !s.closer.sawTail && t == s.(closer := Poll)
    case AcceptTail =>
      && s.closer.Tail? && s.closerIn
      && t == s.(closer := Final, closerIn := false, lock := None, cause := TailAccepted, result := EspOk,
                 playerAlive := s.player.Gone?, hasTask := false, done := true)
    case DeletePlayer =>
      && s.closer.Kill?
      && t == s.(closer := Killed, cause := ForcedDelete, playerAlive := s.player.Gone?,
                 deletedInside := s.playerIn)
    case MarkTimeout =>
      && s.closer.Killed? && s.closerIn
      && t == s.(closer := Final, closerIn := false, lock := None, hasTask := false, done := true,
                 result := EspTimeout)
    case Cleanup(codecClosed) =>
      && s.closer.Final? && s.closerIn
      && (var code := if s.result != EspOk then s.result else if codecClosed then EspOk else EspFail;
          t == s.(closer := Returned(code), closerIn := false, lock := None,
                  codecOpen := s.codecOpen && !codecClosed, hasTask := false, done := true,
                  lost := Waiting(s) + s.item + s.ring, ringExists := false, ring := [], item := [], scratch := [],
                  totalIn := 0, totalOut := 0, playing := false))
  }

  // ---------------------------------------------------------------- runs

  datatype Step = ByProducer(p: ProducerAction) | ByPlayer(t: PlayerAction) | ByCloser(c: CloserAction)

  predicate Next(cfg: Config, s: State, step: Step, t: State) {
    match step
    case ByProducer(a) => ProducerStep(cfg, s, a, t)
    case ByPlayer(a) => PlayerStep(cfg, s, a, t)
    case ByCloser(a) => CloserStep(cfg, s, a, t)
  }

  /** An interleaving: `states[0]` to its last state, one action at a time. */
  ghost predicate Run(cfg: Config, states: seq<State>, steps: seq<Step>) {
    && |states| == |steps| + 1
    && forall i :: 0 <= i < |steps| ==> Next(cfg, states[i], steps[i], states[i + 1])
  }

  // ---------------------------------------------------------------- invariants

  /** Scratch bytes the codec has already taken but nobody has counted yet. */
  predicate InCodec(s: State) {
    s.player.Written? || s.player.Count?
  }

  /** Scratch bytes that still wait for the codec. */
  function Waiting(s: State): seq<Byte> {
    if InCodec(s) then [] else s.scratch
  }

  function Uncounted(s: State): nat {
    if InCodec(s) then |s.scratch| else 0
  }

  function InFlight(p: ProducerAt): nat {
    if p.CountIn? then p.sent else 0
  }

  /** Mutual exclusion: the owner is the one task that is inside. */
  ghost predicate Locks(s: State) {
    && (s.lock == Some(Player) <==> s.playerIn)
    && (s.lock == Some(Producer) <==> s.producerIn)
    && (s.lock == Some(Closer) <==> s.closerIn)
    && (s.producer.Enter? ==> s.producerIn)
    && (s.player.Written? || s.player.Refused? ==> s.playerIn)
    && (s.playerIn ==> s.player.Written? || s.player.Refused? || PlayerWants(s))
    && (s.producerIn ==> s.producer.Enter? || ProducerWants(s.producer))
    && (s.closerIn ==> CloserWants(s.closer))
  }

  /** Nothing is lost, duplicated or reordered; both counters lag by what is in hand. */
  ghost predicate Conserved(s: State) {
    if s.closer.Returned? then s.codec + s.lost == s.enqueued
    else
      && s.codec + Waiting(s) + s.item + s.ring == s.enqueued
      && s.totalIn + InFlight(s.producer) == |s.enqueued|
      && s.totalOut + Uncounted(s) == |s.codec|
  }

  predicate Writing(p: PlayerAt) {
    p.Write? || p.Written? || p.Count?
  }

  predicate Failing(p: PlayerAt) {
    p.Refused? || p.Failure?
  }

  predicate Ended(p: PlayerAt) {
    p.Finish? || p.Gone?
  }

  /** The player is not running: it never was, it ended, or it was deleted. */
  predicate Stopped(s: State) {
    s.player.NotCreated? || s.player.Gone? || !s.playerAlive
  }

  predicate Undecided(c: CloserAt) {
    c.Begin? || c.Poll? || c.Decide? || c.Tail? || c.Kill?
  }

  /** The closer has taken its first decision. */
  predicate CloseBegun(s: State) {
    !s.closer.Begin?
  }

  predicate WholeBlocks(n: nat, block: nat) {
    n == 0 || (0 < block <= n && WholeBlocks(n - block, block))
  }

  function BlockCount(n: nat, block: nat): (k: nat)
    requires WholeBlocks(n, block)
    ensures n == k * block
  {
    if n == 0 then 0 else BlockCount(n - block, block) + 1
  }

  lemma TimesBlock(m: int, block: int)
    requires 0 < block
    ensures m >= 1 ==> m * block >= block
    ensures m <= -1 ==> m * block <= -block
  {
  }

  lemma WholeBlocksMeansMultiple(n: nat, block: nat)
    requires 0 < block && WholeBlocks(n, block)
    ensures n % block == 0
  {
    var k, q: int := BlockCount(n, block), n / block;
    assert (k - q) * block == n % block;
    TimesBlock(k - q, block);
  }

  /** The scratch block is full exactly while a block is being written in the loop, and
      the codec has then taken whole blocks only. */
  ghost predicate Blocked(cfg: Config, s: State) {
    && (!s.afterLoop ==> WholeBlocks(|s.codec|, cfg.block))
    && (s.closer.Returned? || InBlock(cfg, s))
  }

  ghost predicate InBlock(cfg: Config, s: State) {
    && |s.scratch| <= cfg.block
    && (s.item != [] ==> s.player.Copy? || Writing(s.player) || s.writeFailed)
    && (s.item != [] ==> !s.afterLoop || s.writeFailed)
    && (!s.afterLoop && Writing(s.player) ==> |s.scratch| == cfg.block)
    && (!s.afterLoop && !Writing(s.player) && !s.writeFailed ==> |s.scratch| < cfg.block)
  }

  /** Life of the player task and of the flags that speak about it. */
  ghost predicate Life(s: State) {
    && (s.player.NotCreated? ==> s.enqueued == [] && (s.producer.Idle? || s.producer.Enter?)
                                 && s.done && !s.hasTask && !s.started && !s.writeFailed)
    && (!s.player.NotCreated? && !CloseBegun(s) ==> s.started && s.hasTask)
    && (s.producer.Enter? ==> !CloseBegun(s) && !s.closerIn)
    && (CloseBegun(s) && !s.producerLate ==> s.producer.Idle?)
    && (CloseBegun(s) ==> !s.started)
    && (s.afterLoop ==> CloseBegun(s) && (Writing(s.player) || s.writeFailed || Ended(s.player)))
    && (s.player.LoopExit? ==> CloseBegun(s))
    && (Ended(s.player) && !s.writeFailed ==> s.afterLoop)
    && (Failing(s.player) ==> s.writeFailed)
    && (s.writeFailed ==> Failing(s.player) || Ended(s.player))
  }

  /** How far each way of ending the close has got. */
  ghost predicate Phases(s: State) {
    && (Undecided(s.closer) <==> s.cause == Pending)
    && (s.closer.Returned? ==> !s.ringExists)
    && (s.closer.Killed? ==> s.cause == ForcedDelete)
    && (s.cause == ForcedDelete && !s.closer.Killed? ==> s.result == EspTimeout)
    && (s.closer.Returned? && s.closer.code == EspOk ==> s.result == EspOk)
    && (s.cause == Pending && !s.player.NotCreated? ==> (s.done <==> s.player.Gone?))
    && (s.closer.Decide? && s.closer.sawDone ==> s.player.Gone?)
    && (s.cause == Completed ==> s.player.Gone?)
    && (s.cause == NoTask ==> s.player.NotCreated?)
    && (s.writeFailed && Ended(s.player) && (s.cause == Pending || s.cause == Completed) ==> s.result == EspFail)
    && (Undecided(s.closer) && CloseBegun(s) ==> !s.player.NotCreated?)
  }

  predicate PlayerOrphan(s: State) {
    s.lock == Some(Player) && !s.playerAlive
  }

  predicate ProducerOrphan(s: State) {
    s.lock == Some(Producer) && !s.producerAlive
  }

  /** The mutex is owned by a task that no longer runs. */
  predicate Orphaned(s: State) {
    PlayerOrphan(s) || ProducerOrphan(s)
  }

  /** Who deleted the player, and what it was doing then. */
  ghost predicate Deletion(s: State) {
    && (s.deletedInside ==> !s.playerAlive && s.playerIn && s.closer.Killed?)
    && (!s.playerAlive && !s.deletedInside ==> !s.playerIn)
    && (!s.playerAlive ==> !s.player.Gone? && (s.cause == TailAccepted || s.cause == ForcedDelete))
    && (s.cause != Pending ==> Stopped(s))
    && (s.producerIn && !s.producerAlive ==> s.closer.Begin?)
  }

  /** A player that left its loop because the stream was over has delivered everything. */
  ghost predicate Delivered(cfg: Config, s: State) {
    (s.player.LoopExit? || s.afterLoop) && !s.producerLate ==>
      && s.codec == s.enqueued && WholeBlocks(|s.codec|, cfg.block)
      && s.scratch == [] && Ended(s.player) != s.player.LoopExit?
  }

  /** Once the closer has seen the tail within tolerance it stays within tolerance. */
  ghost predicate TailBound(cfg: Config, s: State) {
    (s.closer.Decide? && s.closer.sawTail) || s.closer.Tail? || s.cause == TailAccepted ==>
      !s.producerLate ==> |s.enqueued| <= |s.codec| + cfg.tolerance
  }

  ghost predicate Inv(cfg: Config, s: State) {
    && Locks(s) && Life(s) && Phases(s) && Deletion(s)
    && Conserved(s) && Blocked(cfg, s) && Delivered(cfg, s) && TailBound(cfg, s)
  }

  lemma InitTasks()
    ensures Locks(Init()) && Life(Init()) && Phases(Init()) && Deletion(Init())
  {
  }

  lemma InitBytes()
    ensures Conserved(Init())
  {
  }

  lemma InitBlocks(cfg: Config)
    requires cfg.Valid()
    ensures Blocked(cfg, Init())
  {
    hide WholeBlocks;
    NoBlocks(cfg.block);
  }

  lemma InitEnds(cfg: Config)
    ensures Delivered(cfg, Init()) && TailBound(cfg, Init())
  {
  }

  lemma NoBlocks(block: nat)
    ensures WholeBlocks(0, block)
  {
  }

  lemma InitInv(cfg: Config)
    requires cfg.Valid()
    ensures Inv(cfg, Init())
  {
    hide Locks, Life, Phases, Deletion, Conserved, Blocked, Delivered, TailBound, Init;
    InitTasks();
    InitBytes();
    InitBlocks(cfg);
    InitEnds(cfg);
  }

  /** A level of zero with nobody sending means the codec has everything. */
  lemma NothingLeft(s: State)
    requires Conserved(s) && !s.closer.Returned? && Level(s) == 0 && InFlight(s.producer) == 0
    ensures s.codec == s.enqueued && Waiting(s) == [] && s.item == [] && s.ring == []
  {
    assert |s.codec| >= |s.enqueued|;
  }

  /** An action that moves no byte keeps the byte account. */
  lemma NothingMoved(s: State, t: State)
    requires Conserved(s) && !s.closer.Returned? && !t.closer.Returned?
    requires t.codec == s.codec && Waiting(t) == Waiting(s) && t.item == s.item && t.ring == s.ring
    requires t.enqueued == s.enqueued
    requires t.totalIn + InFlight(t.producer) == s.totalIn + InFlight(s.producer)
    requires t.totalOut + Uncounted(t) == s.totalOut + Uncounted(s)
    ensures Conserved(t)
  {
  }

  lemma AfterReturn(s: State, t: State)
    requires Conserved(s) && s.closer.Returned? && t.closer.Returned?
    requires t.codec == s.codec && t.lost == s.lost && t.enqueued == s.enqueued
    ensures Conserved(t)
  {
  }

  lemma BlocksStay(cfg: Config, s: State, t: State)
    requires Blocked(cfg, s) && !s.closer.Returned? && !t.closer.Returned?
    requires t.codec == s.codec && t.scratch == s.scratch && t.item == s.item && t.player == s.player
    requires t.afterLoop == s.afterLoop && t.writeFailed == s.writeFailed
    ensures Blocked(cfg, t)
  {
  }

  // One lemma per action: it keeps the invariant.

  lemma EnterWriteKeeps(cfg: Config, s: State, t: State, chunk: seq<Byte>)
    requires cfg.Valid() && Inv(cfg, s) && ProducerStep(cfg, s, EnterWrite(chunk), t)
    ensures Inv(cfg, t)
  {
    hide Conserved;
    NothingMoved(s, t);
  }

  lemma WriteRefusedKeeps(cfg: Config, s: State, t: State, ringCreated: bool)
    requires cfg.Valid() && Inv(cfg, s) && ProducerStep(cfg, s, WriteRefused(ringCreated), t)
    ensures Inv(cfg, t)
  {
    hide Conserved;
    NothingMoved(s, t);
  }

  lemma TaskRefusedKeeps(cfg: Config, s: State, t: State)
    requires cfg.Valid() && Inv(cfg, s) && ProducerStep(cfg, s, TaskRefused, t)
    ensures Inv(cfg, t)
  {
    hide Conserved;
    NothingMoved(s, t);
  }

  lemma StartPlayerKeeps(cfg: Config, s: State, t: State)
    requires cfg.Valid() && Inv(cfg, s) && ProducerStep(cfg, s, StartPlayer, t)
    ensures Inv(cfg, t)
  {
    hide Conserved;
    NothingMoved(s, t);
  }

  lemma PlayerRunsKeeps(cfg: Config, s: State, t: State)
    requires cfg.Valid() && Inv(cfg, s) && ProducerStep(cfg, s, PlayerRuns, t)
    ensures Inv(cfg, t)
  {
    hide Conserved;
    NothingMoved(s, t);
  }

  lemma LockInKeeps(cfg: Config, s: State, t: State)
    requires cfg.Valid() && Inv(cfg, s) && ProducerStep(cfg, s, LockIn, t)
    ensures Inv(cfg, t)
  {
    hide Conserved;
    if s.closer.Returned? {
      AfterReturn(s, t);
    } else {
      NothingMoved(s, t);
    }
  }

  lemma DropStampKeeps(cfg: Config, s: State, t: State)
    requires cfg.Valid() && Inv(cfg, s) && ProducerStep(cfg, s, DropStamp, t)
    ensures Inv(cfg, t)
  {
    hide Conserved;
    if s.closer.Returned? {
      AfterReturn(s, t);
    } else {
      NothingMoved(s, t);
    }
  }

  lemma RingSendKeeps(cfg: Config, s: State, t: State)
    requires cfg.Valid() && Inv(cfg, s) && ProducerStep(cfg, s, RingSend, t)
    ensures Inv(cfg, t)
  {
    assert Conserved(t) by {
      var chunk := s.producer.chunk;
      assert s.codec + Waiting(s) + s.item + (s.ring + chunk) == s.codec + Waiting(s) + s.item + s.ring + chunk;
    }
    hide Conserved;
  }

  lemma RingFullKeeps(cfg: Config, s: State, t: State)
    requires cfg.Valid() && Inv(cfg, s) && ProducerStep(cfg, s, RingFull, t)
    ensures Inv(cfg, t)
  {
    hide Conserved;
    if s.closer.Returned? {
      AfterReturn(s, t);
    } else {
      NothingMoved(s, t);
    }
  }

  lemma AddCountKeeps(cfg: Config, s: State, t: State)
    requires cfg.Valid() && Inv(cfg, s) && ProducerStep(cfg, s, AddCount, t)
    ensures Inv(cfg, t)
  {
    hide Conserved;
    if s.closer.Returned? {
      AfterReturn(s, t);
    } else {
      NothingMoved(s, t);
    }
  }

  lemma PassGateKeeps(cfg: Config, s: State, t: State)
    requires cfg.Valid() && Inv(cfg, s) && PlayerStep(cfg, s, PassGate, t)
    ensures Inv(cfg, t)
  {
    hide Conserved;
    NothingMoved(s, t);
  }

  lemma LockPlayerKeeps(cfg: Config, s: State, t: State)
    requires cfg.Valid() && Inv(cfg, s) && PlayerStep(cfg, s, LockPlayer, t)
    ensures Inv(cfg, t)
  {
    hide Conserved;
    NothingMoved(s, t);
  }

  lemma CheckGateKeeps(cfg: Config, s: State, t: State)
    requires cfg.Valid() && Inv(cfg, s) && PlayerStep(cfg, s, CheckGate, t)
    ensures Inv(cfg, t)
  {
    hide Conserved;
    NothingMoved(s, t);
    if !s.started && Level(s) == 0 && !s.producerLate {
      NothingLeft(s);
    }
  }

  lemma DropStallKeeps(cfg: Config, s: State, t: State)
    requires cfg.Valid() && Inv(cfg, s) && PlayerStep(cfg, s, DropStall, t)
    ensures Inv(cfg, t)
  {
    hide Conserved;
    NothingMoved(s, t);
  }

  lemma RingReceiveMoves(cfg: Config, s: State, t: State, n: nat)
    requires Conserved(s) && Blocked(cfg, s) && Life(s) && PlayerStep(cfg, s, RingReceive(n), t)
    ensures Conserved(t)
  {
    assert s.ring == s.ring[..n] + s.ring[n..];
    assert s.codec + Waiting(s) + s.ring[..n] + s.ring[n..] == s.codec + Waiting(s) + (s.ring[..n] + s.ring[n..]);
  }

  lemma RingReceiveKeeps(cfg: Config, s: State, t: State, n: nat)
    requires cfg.Valid() && Inv(cfg, s) && PlayerStep(cfg, s, RingReceive(n), t)
    ensures Inv(cfg, t)
  {
    hide Conserved;
    RingReceiveMoves(cfg, s, t, n);
  }

  lemma RingEmptyKeeps(cfg: Config, s: State, t: State)
    requires cfg.Valid() && Inv(cfg, s) && PlayerStep(cfg, s, RingEmpty, t)
    ensures Inv(cfg, t)
  {
    hide Conserved;
    NothingMoved(s, t);
  }

  lemma CheckStarvedKeeps(cfg: Config, s: State, t: State)
    requires cfg.Valid() && Inv(cfg, s) && PlayerStep(cfg, s, CheckStarved, t)
    ensures Inv(cfg, t)
  {
    hide Conserved;
    NothingMoved(s, t);
    if !s.started && Level(s) == 0 && !s.producerLate {
      NothingLeft(s);
    }
  }

  lemma CopyMoves(cfg: Config, s: State, t: State)
    requires Conserved(s) && PlayerStep(cfg, s, CopyBytes, t) && !s.closer.Returned?
    ensures Conserved(t) && |t.scratch| == |s.scratch| + CopySize(cfg, s)
    ensures t.item == [] || |t.scratch| == cfg.block
  {
    var n := CopySize(cfg, s);
    assert s.item == s.item[..n] + s.item[n..];
    assert s.codec + (s.scratch + s.item[..n]) + s.item[n..] == s.codec + s.scratch + s.item;
  }

  lemma CopyBytesKeeps(cfg: Config, s: State, t: State)
    requires cfg.Valid() && Inv(cfg, s) && PlayerStep(cfg, s, CopyBytes, t)
    ensures Inv(cfg, t)
  {
    hide Conserved, CopySize;
    CopyMoves(cfg, s, t);
  }

  lemma ReturnItemKeeps(cfg: Config, s: State, t: State)
    requires cfg.Valid() && Inv(cfg, s) && PlayerStep(cfg, s, ReturnItem, t)
    ensures Inv(cfg, t)
  {
    hide Conserved;
    NothingMoved(s, t);
  }

  lemma CodecWriteKeeps(cfg: Config, s: State, t: State, accepted: bool)
    requires cfg.Valid() && Inv(cfg, s) && PlayerStep(cfg, s, CodecWrite(accepted), t)
    ensures Inv(cfg, t)
  {
    assert Conserved(t) by {
      assert s.codec + s.scratch + [] == s.codec + s.scratch;
    }
    hide Conserved;
  }

  lemma DropWriteKeeps(cfg: Config, s: State, t: State)
    requires cfg.Valid() && Inv(cfg, s) && PlayerStep(cfg, s, DropWrite, t)
    ensures Inv(cfg, t)
  {
    hide Conserved;
    NothingMoved(s, t);
  }

  lemma AddCounterKeeps(cfg: Config, s: State, t: State)
    requires cfg.Valid() && Inv(cfg, s) && PlayerStep(cfg, s, AddCounter, t)
    ensures Inv(cfg, t)
  {
    assert Conserved(t);
    hide Conserved;
  }

  lemma StoreResultKeeps(cfg: Config, s: State, t: State)
    requires cfg.Valid() && Inv(cfg, s) && PlayerStep(cfg, s, StoreResult, t)
    ensures Inv(cfg, t)
  {
    hide Conserved;
    NothingMoved(s, t);
  }

  lemma LeaveLoopKeeps(cfg: Config, s: State, t: State)
    requires cfg.Valid() && Inv(cfg, s) && PlayerStep(cfg, s, LeaveLoop, t)
    ensures Inv(cfg, t)
  {
    hide Conserved;
    NothingMoved(s, t);
  }

  lemma SetDoneKeeps(cfg: Config, s: State, t: State)
    requires cfg.Valid() && Inv(cfg, s) && PlayerStep(cfg, s, SetDone, t)
    ensures Inv(cfg, t)
  {
    hide Conserved;
    NothingMoved(s, t);
  }

  lemma DeleteProducerKeeps(cfg: Config, s: State, t: State)
    requires cfg.Valid() && Inv(cfg, s) && CloserStep(cfg, s, DeleteProducer, t)
    ensures Inv(cfg, t)
  {
    hide Conserved;
    NothingMoved(s, t);
  }

  lemma LockCloserKeeps(cfg: Config, s: State, t: State)
    requires cfg.Valid() && Inv(cfg, s) && CloserStep(cfg, s, LockCloser, t)
    ensures Inv(cfg, t)
  {
    hide Conserved;
    NothingMoved(s, t);
  }

  lemma AskToStopKeeps(cfg: Config, s: State, t: State)
    requires cfg.Valid() && Inv(cfg, s) && CloserStep(cfg, s, AskToStop, t)
    ensures Inv(cfg, t)
  {
    hide Conserved;
    NothingMoved(s, t);
  }

  lemma ReadPollKeeps(cfg: Config, s: State, t: State)
    requires cfg.Valid() && Inv(cfg, s) && CloserStep(cfg, s, ReadPoll, t)
    ensures Inv(cfg, t)
  {
    assert Conserved(t) && |s.enqueued| - |s.codec| <= s.totalIn + InFlight(s.producer) - s.totalOut;
    hide Conserved;
  }

  lemma SeeDoneKeeps(cfg: Config, s: State, t: State)
    requires cfg.Valid() && Inv(cfg, s) && CloserStep(cfg, s, SeeDone, t)
    ensures Inv(cfg, t)
  {
    hide Conserved;
    NothingMoved(s, t);
  }

  lemma SeeTailKeeps(cfg: Config, s: State, t: State)
    requires cfg.Valid() && Inv(cfg, s) && CloserStep(cfg, s, SeeTail, t)
    ensures Inv(cfg, t)
  {
    hide Conserved, Blocked;
    NothingMoved(s, t);
    BlocksStay(cfg, s, t);
  }

  lemma GiveUpKeeps(cfg: Config, s: State, t: State)
    requires cfg.Valid() && Inv(cfg, s) && CloserStep(cfg, s, GiveUp, t)
    ensures Inv(cfg, t)
  {
    hide Conserved, Blocked;
    NothingMoved(s, t);
    BlocksStay(cfg, s, t);
  }

  lemma PollAgainKeeps(cfg: Config, s: State, t: State)
    requires cfg.Valid() && Inv(cfg, s) && CloserStep(cfg, s, PollAgain, t)
    ensures Inv(cfg, t)
  {
    hide Conserved, Blocked;
    NothingMoved(s, t);
    BlocksStay(cfg, s, t);
  }

  lemma AcceptTailKeepsTasks(cfg: Config, s: State, t: State)
    requires Locks(s) && Life(s) && Phases(s) && Deletion(s) && CloserStep(cfg, s, AcceptTail, t)
    ensures Locks(t) && Life(t) && Phases(t) && Deletion(t)
  {
  }

  lemma AcceptTailKeepsBytes(cfg: Config, s: State, t: State)
    requires Conserved(s) && Blocked(cfg, s) && CloserStep(cfg, s, AcceptTail, t)
    ensures Conserved(t) && Blocked(cfg, t)
  {
    hide WholeBlocks;
  }

  lemma AcceptTailKeepsEnd(cfg: Config, s: State, t: State)
    requires Delivered(cfg, s) && TailBound(cfg, s) && CloserStep(cfg, s, AcceptTail, t)
    ensures Delivered(cfg, t) && TailBound(cfg, t)
  {
    hide WholeBlocks;
  }

  lemma AcceptTailKeeps(cfg: Config, s: State, t: State)
    requires cfg.Valid() && Inv(cfg, s) && CloserStep(cfg, s, AcceptTail, t)
    ensures Inv(cfg, t)
  {
    hide Conserved, Blocked, Locks, Life, Phases, Deletion, Delivered, TailBound, CloserStep;
    AcceptTailKeepsTasks(cfg, s, t);
    AcceptTailKeepsBytes(cfg, s, t);
    AcceptTailKeepsEnd(cfg, s, t);
  }

  lemma DeletePlayerKeeps(cfg: Config, s: State, t: State)
    requires cfg.Valid() && Inv(cfg, s) && CloserStep(cfg, s, DeletePlayer, t)
    ensures Inv(cfg, t)
  {
    hide Conserved, Blocked;
    NothingMoved(s, t);
    BlocksStay(cfg, s, t);
  }

  lemma MarkTimeoutLife(cfg: Config, s: State, t: State)
    requires Life(s) && CloserStep(cfg, s, MarkTimeout, t)
    ensures Life(t)
  {
  }

  lemma MarkTimeoutKeeps(cfg: Config, s: State, t: State)
    requires cfg.Valid() && Inv(cfg, s) && CloserStep(cfg, s, MarkTimeout, t)
    ensures Inv(cfg, t)
  {
    MarkTimeoutLife(cfg, s, t);
    hide Conserved, Blocked, Life;
    NothingMoved(s, t);
    BlocksStay(cfg, s, t);
  }

  lemma CleanupConserves(cfg: Config, s: State, t: State, codecClosed: bool)
    requires Conserved(s) && CloserStep(cfg, s, Cleanup(codecClosed), t)
    ensures Conserved(t)
  {
    assert s.codec + (Waiting(s) + s.item + s.ring) == s.codec + Waiting(s) + s.item + s.ring;
  }

  lemma CleanupKeeps(cfg: Config, s: State, t: State, codecClosed: bool)
    requires cfg.Valid() && Inv(cfg, s) && CloserStep(cfg, s, Cleanup(codecClosed), t)
    ensures Inv(cfg, t)
  {
    hide Conserved, InBlock, Waiting;
    CleanupConserves(cfg, s, t, codecClosed);
  }

  lemma ProducerKeeps(cfg: Config, s: State, a: ProducerAction, t: State)
    requires cfg.Valid() && Inv(cfg, s) && ProducerStep(cfg, s, a, t)
    ensures Inv(cfg, t)
  {
    hide Inv, ProducerStep;
    match a
    case EnterWrite(chunk) => EnterWriteKeeps(cfg, s, t, chunk);
    case WriteRefused(ringCreated) => WriteRefusedKeeps(cfg, s, t, ringCreated);
    case TaskRefused => TaskRefusedKeeps(cfg, s, t);
    case StartPlayer => StartPlayerKeeps(cfg, s, t);
    case PlayerRuns => PlayerRunsKeeps(cfg, s, t);
    case LockIn => LockInKeeps(cfg, s, t);
    case DropStamp => DropStampKeeps(cfg, s, t);
    case RingSend => RingSendKeeps(cfg, s, t);
    case RingFull => RingFullKeeps(cfg, s, t);
    case AddCount => AddCountKeeps(cfg, s, t);
  }

  lemma PlayerKeeps(cfg: Config, s: State, a: PlayerAction, t: State)
    requires cfg.Valid() && Inv(cfg, s) && PlayerStep(cfg, s, a, t)
    ensures Inv(cfg, t)
  {
    hide Inv, PlayerStep;
    match a
    case PassGate => PassGateKeeps(cfg, s, t);
    case LockPlayer => LockPlayerKeeps(cfg, s, t);
    case CheckGate => CheckGateKeeps(cfg, s, t);
    case DropStall => DropStallKeeps(cfg, s, t);
    case RingReceive(n) => RingReceiveKeeps(cfg, s, t, n);
    case RingEmpty => RingEmptyKeeps(cfg, s, t);
    case CheckStarved => CheckStarvedKeeps(cfg, s, t);
    case CopyBytes => CopyBytesKeeps(cfg, s, t);
    case ReturnItem => ReturnItemKeeps(cfg, s, t);
    case CodecWrite(accepted) => CodecWriteKeeps(cfg, s, t, accepted);
    case DropWrite => DropWriteKeeps(cfg, s, t);
    case AddCounter => AddCounterKeeps(cfg, s, t);
    case StoreResult => StoreResultKeeps(cfg, s, t);
    case LeaveLoop => LeaveLoopKeeps(cfg, s, t);
    case SetDone => SetDoneKeeps(cfg, s, t);
  }

  lemma CloserKeeps(cfg: Config, s: State, a: CloserAction, t: State)
    requires cfg.Valid() && Inv(cfg, s) && CloserStep(cfg, s, a, t)
    ensures Inv(cfg, t)
  {
    hide Inv, CloserStep;
    match a
    case DeleteProducer => DeleteProducerKeeps(cfg, s, t);
    case LockCloser => LockCloserKeeps(cfg, s, t);
    case AskToStop => AskToStopKeeps(cfg, s, t);
    case ReadPoll => ReadPollKeeps(cfg, s, t);
    case SeeDone => SeeDoneKeeps(cfg, s, t);
    case SeeTail => SeeTailKeeps(cfg, s, t);
    case GiveUp => GiveUpKeeps(cfg, s, t);
    case PollAgain => PollAgainKeeps(cfg, s, t);
    case AcceptTail => AcceptTailKeeps(cfg, s, t);
    case DeletePlayer => DeletePlayerKeeps(cfg, s, t);
    case MarkTimeout => MarkTimeoutKeeps(cfg, s, t);
    case Cleanup(codecClosed) => CleanupKeeps(cfg, s, t, codecClosed);
  }

  lemma StepKeeps(cfg: Config, s: State, step: Step, t: State)
    requires cfg.Valid() && Inv(cfg, s) && Next(cfg, s, step, t)
    ensures Inv(cfg, t)
  {
    hide Inv, ProducerStep, PlayerStep, CloserStep;
    match step
    case ByProducer(a) => ProducerKeeps(cfg, s, a, t);
    case ByPlayer(a) => PlayerKeeps(cfg, s, a, t);
    case ByCloser(a) => CloserKeeps(cfg, s, a, t);
  }

  /** Whatever the interleaving, every state of every run satisfies the invariant. */
  lemma {:induction false} RunKeeps(cfg: Config, states: seq<State>, steps: seq<Step>, i: nat)
    requires cfg.Valid() && Run(cfg, states, steps) && Inv(cfg, states[0]) && i <= |steps|
    ensures Inv(cfg, states[i])
    decreases i
  {
    hide Inv, Next;
    if i > 0 {
      RunKeeps(cfg, states, steps, i - 1);
      StepKeeps(cfg, states[i - 1], steps[i - 1], states[i]);
    }
  }

  ghost predicate Execution(cfg: Config, states: seq<State>, steps: seq<Step>) {
    cfg.Valid() && Run(cfg, states, steps) && states[0] == Init()
  }

  lemma ExtendRun(cfg: Config, states: seq<State>, steps: seq<Step>, step: Step, t: State)
    requires Execution(cfg, states, steps) && Next(cfg, states[|steps|], step, t)
    ensures Execution(cfg, states + [t], steps + [step])
  {
    hide Next;
  }

  // ---------------------------------------------------------------- theorems over all runs

  /** Playback is always an in-order prefix of the input. Until cleanup the rest is in the
      scratch block, the unread item and the ring, in that order, and the two counters are
      exact up to the send in flight and the block not yet counted. */
  lemma PlaybackIsPrefix(cfg: Config, states: seq<State>, steps: seq<Step>, i: nat)
    requires Execution(cfg, states, steps) && i <= |steps|
    ensures var s := states[i];
            && s.codec <= s.enqueued
            && (!s.closer.Returned? ==>
                  && s.enqueued == s.codec + Waiting(s) + s.item + s.ring
                  && s.totalIn == |s.enqueued| - InFlight(s.producer)
                  && s.totalOut == |s.codec| - Uncounted(s))
  {
    hide Inv, Next;
    InitInv(cfg);
    RunKeeps(cfg, states, steps, i);
    PrefixNow(cfg, states[i]);
  }

  lemma PrefixNow(cfg: Config, s: State)
    requires Inv(cfg, s)
    ensures s.codec <= s.enqueued
    ensures !s.closer.Returned? ==>
              && s.enqueued == s.codec + Waiting(s) + s.item + s.ring
              && s.totalIn == |s.enqueued| - InFlight(s.producer)
              && s.totalOut == |s.codec| - Uncounted(s)
  {
    hide Locks, Life, Phases, Deletion, Blocked, Delivered, TailBound;
    var waiting := Waiting(s);
    assert s.codec + waiting + s.item + s.ring == s.codec + (waiting + s.item + s.ring);
  }

  /** A player that leaves its loop by itself, nobody sending any more, has delivered every
      byte; that can only happen when the total is a whole number of blocks. */
  lemma NormalEndDelivers(cfg: Config, states: seq<State>, steps: seq<Step>, i: nat)
    requires Execution(cfg, states, steps) && i <= |steps|
    requires var s := states[i];
             (s.player.LoopExit? || Ended(s.player)) && !s.writeFailed && !s.producerLate
    ensures states[i].codec == states[i].enqueued
    ensures |states[i].enqueued| % cfg.block == 0
  {
    InitInv(cfg);
    RunKeeps(cfg, states, steps, i);
    WholeBlocksMeansMultiple(|states[i].codec|, cfg.block);
  }

  /** The loss bound. When the producer had finished before the close and the close returns
      ESP_OK, the codec got everything but a tail of at most the tolerance. If the total is
      not a whole number of blocks, a tail really is cut off. */
  lemma CloseLosesAtMostTail(cfg: Config, states: seq<State>, steps: seq<Step>, i: nat)
    requires Execution(cfg, states, steps) && i <= |steps|
    requires states[i].closer == Returned(EspOk) && !states[i].producerLate
    ensures var s := states[i];
            && s.codec <= s.enqueued
            && |s.enqueued| <= |s.codec| + cfg.tolerance
            && (s.cause != TailAccepted ==> s.codec == s.enqueued)
            && (|s.enqueued| % cfg.block != 0 ==> s.cause == TailAccepted && |s.codec| < |s.enqueued|)
  {
    hide Inv, Next;
    InitInv(cfg);
    RunKeeps(cfg, states, steps, i);
    PrefixNow(cfg, states[i]);
    TailNow(cfg, states[i]);
  }

  lemma TailNow(cfg: Config, s: State)
    requires cfg.Valid() && Inv(cfg, s) && s.closer == Returned(EspOk) && !s.producerLate
    ensures |s.enqueued| <= |s.codec| + cfg.tolerance
    ensures s.cause != TailAccepted ==> s.codec == s.enqueued
    ensures |s.enqueued| % cfg.block != 0 ==> s.cause == TailAccepted && s.codec != s.enqueued
  {
    hide Locks;
    if s.codec == s.enqueued && WholeBlocks(|s.codec|, cfg.block) {
      WholeBlocksMeansMultiple(|s.codec|, cfg.block);
    }
  }

  lemma ProducerDeletesNobody(cfg: Config, s: State, a: ProducerAction, t: State)
    requires ProducerStep(cfg, s, a, t)
    ensures t.deletedInside == s.deletedInside && t.producerAlive
  {
    hide AfterResult;
    match a
    case EnterWrite(_) => case WriteRefused(_) => case TaskRefused => case StartPlayer => case PlayerRuns =>
    case LockIn => case DropStamp => case RingSend => case RingFull => case AddCount =>
  }

  lemma PlayerKeepsFrame(cfg: Config, s: State, a: PlayerAction, t: State)
    requires PlayerStep(cfg, s, a, t)
    ensures PlayerFrame(s, t)
  {
    hide PlayerFrame;
  }

  lemma CloserDeletes(cfg: Config, s: State, a: CloserAction, t: State)
    requires CloserStep(cfg, s, a, t)
    ensures t.deletedInside == if a == DeletePlayer then s.playerIn else s.deletedInside
    ensures t.producerAlive <==> s.producerAlive && a != DeleteProducer
    ensures t.producerIn == s.producerIn
  {
    hide Level, Waiting, CloserWants;
    match a
    case DeleteProducer => case LockCloser => case AskToStop => case ReadPoll => case SeeDone => case SeeTail =>
    case GiveUp => case PollAgain => case AcceptTail => case DeletePlayer => case MarkTimeout => case Cleanup(_) =>
  }

  /** Only the two deletions touch what says who was deleted. */
  lemma DeletionFlag(cfg: Config, s: State, step: Step, t: State)
    requires Next(cfg, s, step, t)
    ensures t.deletedInside == if step == ByCloser(DeletePlayer) then s.playerIn else s.deletedInside
    ensures t.producerAlive <==> s.producerAlive && step != ByCloser(DeleteProducer)
    ensures !t.producerAlive ==> t.producerIn == s.producerIn
  {
    hide ProducerStep, PlayerStep, CloserStep;
    match step
    case ByProducer(a) =>
      ProducerDeletesNobody(cfg, s, a, t);
      ProducerActsAlive(cfg, s, a, t);
    case ByPlayer(a) => PlayerKeepsFrame(cfg, s, a, t);
    case ByCloser(a) => CloserDeletes(cfg, s, a, t);
  }

  lemma ProducerActsAlive(cfg: Config, s: State, a: ProducerAction, t: State)
    requires ProducerStep(cfg, s, a, t)
    ensures s.producerAlive
  {
  }

  lemma LocksAtDeletion(cfg: Config, s: State, step: Step, t: State)
    requires Locks(s) && Phases(s) && Deletion(s) && Next(cfg, s, step, t)
    ensures step == ByCloser(DeletePlayer) ==> !s.deletedInside
    ensures step == ByCloser(AcceptTail) ==> !s.playerIn
    ensures s.deletedInside ==> s.cause == ForcedDelete
  {
    hide ProducerStep, PlayerStep;
  }

  /** A deleted task owns the mutex exactly when the timeout branch of the close deleted the
      player inside a locked section, or the join timeout before it the producer: ending by
      completion or by tail acceptance never does that. */
  lemma OrphanedOnlyByForcedDelete(cfg: Config, states: seq<State>, steps: seq<Step>, i: nat)
    requires Execution(cfg, states, steps) && i < |steps|
    ensures PlayerOrphan(states[i + 1]) <==>
              PlayerOrphan(states[i]) || (steps[i] == ByCloser(DeletePlayer) && states[i].playerIn)
    ensures ProducerOrphan(states[i + 1]) <==>
              ProducerOrphan(states[i]) || (steps[i] == ByCloser(DeleteProducer) && states[i].producerIn)
    ensures PlayerOrphan(states[i]) ==> states[i].cause == ForcedDelete
    ensures steps[i] == ByCloser(AcceptTail) ==> !states[i].playerIn
  {
    hide Next;
    InitInv(cfg);
    RunKeeps(cfg, states, steps, i);
    RunKeeps(cfg, states, steps, i + 1);
    OrphanMeansDeletedInside(states[i]);
    OrphanMeansDeletedInside(states[i + 1]);
    DeletionFlag(cfg, states[i], steps[i], states[i + 1]);
    LocksAtDeletion(cfg, states[i], steps[i], states[i + 1]);
  }

  lemma OrphanMeansDeletedInside(s: State)
    requires Locks(s) && Deletion(s)
    ensures PlayerOrphan(s) <==> s.deletedInside
    ensures ProducerOrphan(s) <==> s.producerIn && !s.producerAlive
  {
  }

  /** And then the close hangs: the mutex stays orphaned, no task ever gets it, the closer
      never returns. */
  lemma {:induction false} OrphanHangs(cfg: Config, states: seq<State>, steps: seq<Step>, i: nat, j: nat)
    requires Execution(cfg, states, steps) && i <= j <= |steps| && Orphaned(states[i])
    ensures Orphaned(states[j]) && !states[j].closerIn
    ensures PlayerOrphan(states[i]) ==>
              PlayerOrphan(states[j]) && states[j].closer == Killed && !states[j].producerIn
    ensures ProducerOrphan(states[i]) ==>
              ProducerOrphan(states[j]) && states[j].closer == Begin && !states[j].playerIn
    decreases j
  {
    hide Inv, Next, PlayerOrphan, ProducerOrphan;
    InitInv(cfg);
    RunKeeps(cfg, states, steps, j);
    OrphanState(cfg, states[j]);
    if i < j {
      var k := j - 1;
      OrphanHangs(cfg, states, steps, i, k);
      OrphanedOnlyByForcedDelete(cfg, states, steps, k);
      assert states[k + 1] == states[j];
    }
  }

  lemma OrphanState(cfg: Config, s: State)
    requires Inv(cfg, s)
    ensures PlayerOrphan(s) ==> s.closer == Killed && !s.closerIn && !s.producerIn
    ensures ProducerOrphan(s) ==> s.closer == Begin && !s.closerIn && !s.playerIn
  {
    OrphanMeansDeletedInside(s);
  }

  // ---------------------------------------------------------------- deleting a task that has ended

  /** The closer has polled, seen the player at work, and not polled again. */
  predicate OnItsWay(c: CloserAt) {
    (c.Decide? && !c.sawDone) || c.Tail? || c.Kill?
  }

  lemma CloserSincePoll(cfg: Config, s: State, a: CloserAction, t: State)
    requires CloserStep(cfg, s, a, t) && OnItsWay(t.closer)
    ensures a == ReadPoll || OnItsWay(s.closer)
    ensures a == ReadPoll ==> s.closer.Poll? && !s.done
  {
    hide Level, Waiting, CloserWants;
    match a
    case DeleteProducer => case LockCloser => case AskToStop => case ReadPoll => case SeeDone => case SeeTail =>
    case GiveUp => case PollAgain => case AcceptTail => case DeletePlayer => case MarkTimeout => case Cleanup(_) =>
  }

  lemma OnItsWaySincePoll(cfg: Config, s: State, step: Step, t: State)
    requires Next(cfg, s, step, t) && OnItsWay(t.closer)
    ensures step == ByCloser(ReadPoll) || OnItsWay(s.closer)
    ensures step == ByCloser(ReadPoll) ==> s.closer.Poll? && !s.done
  {
    hide ProducerStep, PlayerStep, CloserStep, OnItsWay;
    match step
    case ByProducer(a) => ProducerLeavesCloser(cfg, s, a, t);
    case ByPlayer(a) => PlayerKeepsFrame(cfg, s, a, t);
    case ByCloser(a) => CloserSincePoll(cfg, s, a, t);
  }

  lemma ProducerLeavesCloser(cfg: Config, s: State, a: ProducerAction, t: State)
    requires ProducerStep(cfg, s, a, t)
    ensures t.closer == s.closer
  {
    hide AfterResult;
    match a
    case EnterWrite(_) => case WriteRefused(_) => case TaskRefused => case StartPlayer => case PlayerRuns =>
    case LockIn => case DropStamp => case RingSend => case RingFull => case AddCount =>
  }

  lemma {:induction false} LastPoll(cfg: Config, states: seq<State>, steps: seq<Step>, i: nat) returns (k: nat)
    requires Execution(cfg, states, steps) && i <= |steps| && OnItsWay(states[i].closer)
    ensures k < i && steps[k] == ByCloser(ReadPoll) && states[k].closer.Poll? && !states[k].done
    ensures forall j :: k < j < i ==> steps[j] != ByCloser(ReadPoll)
    decreases i
  {
    hide Next, OnItsWay;
    assert i > 0 by {
      InitIsNotOnItsWay();
    }
    OnItsWaySincePoll(cfg, states[i - 1], steps[i - 1], states[i]);
    if steps[i - 1] == ByCloser(ReadPoll) {
      k := i - 1;
    } else {
      k := LastPoll(cfg, states, steps, i - 1);
    }
  }

  lemma InitIsNotOnItsWay()
    ensures !OnItsWay(Init().closer)
  {
  }

  lemma ProducerEndsNoPlayer(cfg: Config, s: State, a: ProducerAction, t: State)
    requires Life(s) && ProducerStep(cfg, s, a, t)
    ensures t.player.Gone? <==> s.player.Gone?
  {
    hide AfterResult;
    match a
    case EnterWrite(_) => case WriteRefused(_) => case TaskRefused => case StartPlayer => case PlayerRuns =>
    case LockIn => case DropStamp => case RingSend => case RingFull => case AddCount =>
  }

  lemma PlayerEnds(cfg: Config, s: State, a: PlayerAction, t: State)
    requires PlayerStep(cfg, s, a, t)
    ensures t.player.Gone? <==> a == SetDone
    ensures !s.player.Gone?
  {
    hide PlayerFrame, Level, CopySize, Over;
    match a
    case PassGate => case LockPlayer => case CheckGate => case DropStall => case RingReceive(_) => case RingEmpty =>
    case CheckStarved => case CopyBytes => case ReturnItem => case CodecWrite(_) => case DropWrite =>
    case AddCounter => case StoreResult => case LeaveLoop => case SetDone =>
  }

  lemma CloserEndsNoPlayer(cfg: Config, s: State, a: CloserAction, t: State)
    requires CloserStep(cfg, s, a, t)
    ensures t.player == s.player
  {
    hide Level, Waiting, CloserWants;
    match a
    case DeleteProducer => case LockCloser => case AskToStop => case ReadPoll => case SeeDone => case SeeTail =>
    case GiveUp => case PollAgain => case AcceptTail => case DeletePlayer => case MarkTimeout => case Cleanup(_) =>
  }

  lemma GoneOnlyByItself(cfg: Config, s: State, step: Step, t: State)
    requires Life(s) && Next(cfg, s, step, t)
    ensures t.player.Gone? <==> s.player.Gone? || step == ByPlayer(SetDone)
  {
    hide ProducerStep, PlayerStep, CloserStep, Life;
    match step
    case ByProducer(a) => ProducerEndsNoPlayer(cfg, s, a, t);
    case ByPlayer(a) => PlayerEnds(cfg, s, a, t);
    case ByCloser(a) => CloserEndsNoPlayer(cfg, s, a, t);
  }

  lemma {:induction false} GoneSince(cfg: Config, states: seq<State>, steps: seq<Step>, k: nat, i: nat)
    requires Execution(cfg, states, steps) && k <= i <= |steps| && !states[k].player.Gone?
    ensures states[i].player.Gone? <==> exists j :: k <= j < i && steps[j] == ByPlayer(SetDone)
    decreases i
  {
    hide Next, Inv;
    if k < i {
      GoneSince(cfg, states, steps, k, i - 1);
      InitInv(cfg);
      RunKeeps(cfg, states, steps, i - 1);
      assert Life(states[i - 1]) by { LifeOf(cfg, states[i - 1]); }
      GoneOnlyByItself(cfg, states[i - 1], steps[i - 1], states[i]);
    }
  }

  lemma LifeOf(cfg: Config, s: State)
    requires Inv(cfg, s)
    ensures Life(s)
    ensures s.closer.Poll? && !s.done ==> !s.player.Gone?
  {
    hide Life, Locks, Conserved, Blocked, Delivered, TailBound;
  }

  lemma DeletesOnItsWay(cfg: Config, s: State, step: Step, t: State)
    requires Next(cfg, s, step, t) && (step == ByCloser(AcceptTail) || step == ByCloser(DeletePlayer))
    ensures OnItsWay(s.closer)
  {
    hide ProducerStep, PlayerStep;
  }

  /** The close deletes a player that has already ended exactly when the player finished between
      the poll that still saw it at work and the deletion. */
  lemma EndedTaskIsDeletedExactlyWhen(cfg: Config, states: seq<State>, steps: seq<Step>, i: nat) returns (k: nat)
    requires Execution(cfg, states, steps) && i < |steps|
    requires steps[i] == ByCloser(AcceptTail) || steps[i] == ByCloser(DeletePlayer)
    ensures k < i && steps[k] == ByCloser(ReadPoll) && !states[k].player.Gone?
    ensures forall j :: k < j < i ==> steps[j] != ByCloser(ReadPoll)
    ensures states[i].player.Gone? <==> exists j :: k < j < i && steps[j] == ByPlayer(SetDone)
  {
    hide Next, Inv, OnItsWay;
    DeletesOnItsWay(cfg, states[i], steps[i], states[i + 1]);
    k := LastPoll(cfg, states, steps, i);
    InitInv(cfg);
    RunKeeps(cfg, states, steps, k);
    LifeOf(cfg, states[k]);
    GoneSince(cfg, states, steps, k, i);
  }
}

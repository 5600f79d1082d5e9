/** The playback task and the close function as the loops they are. Before each of their
    own actions the other tasks may run for as long as they like; each loop is shown to be
    a run of the step machine, so the theorems about all runs hold of it. */
module JitterTasks {
  import opened Bytes
  import opened JitterBuffer
  import opened JitterClose

  /** The playback device: the shared state, and how often the scheduler will still let
      the current task run. */
  class Device {
    const cfg: Config
    var s: State
    var turns: nat
    ghost var states: seq<State>
    ghost var steps: seq<Step>

    /** The current state ends a run of the step machine. */
    ghost predicate Valid()
      reads this
    {
      cfg.Valid() && Execution(cfg, states, steps) && s == states[|steps|] && Inv(cfg, s)
    }

    /** The player never runs again: it was deleted, or the scheduler has stopped. */
    predicate Silenced()
      reads this
    {
      turns == 0 || !s.playerAlive
    }

    constructor (c: Config, budget: nat)
      requires c.Valid()
      ensures Valid() && cfg == c && turns == budget && s == Init()
    {
      cfg, s, turns, states, steps := c, Init(), budget, [Init()], [];
      new;
      hide Inv, Next;
      InitInv(c);
    }

    method Do(step: Step, t: State)
      requires Valid() && Next(cfg, s, step, t)
      modifies this`s, this`states, this`steps
      ensures Valid() && s == t
    {
      hide Next, Inv;
      StepKeeps(cfg, s, step, t);
      ExtendRun(cfg, states, steps, step, t);
      s, states, steps := t, states + [t], steps + [step];
    }

    /** Any number of actions of the other tasks. False when `self` never runs again. */
    method Yield(self: Task) returns (scheduled: bool)
      requires Valid()
      modifies this
      ensures Valid() && Leaves(self, old(s), s)
      ensures turns <= old(turns) && (scheduled ==> turns < old(turns))
      ensures !scheduled ==> turns == 0
    {
      hide Next, Inv;
      LeavesItself(self, s);
      if turns == 0 {
        return false;
      }
      turns := turns - 1;
      var others: nat :| others >= 0;
      for i := 0 to others
        invariant Valid() && Leaves(self, old(s), s) && turns < old(turns)
      {
        var step: Step := *;
        var t: State := *;
        if Actor(step) != self && Next(cfg, s, step, t) {
          OthersLeave(cfg, self, old(s), s, step, t);
          Do(step, t);
        }
      }
      return true;
    }
  }

  // ---------------------------------------------------------------- player

  /** The player has moved on to `at`, outside every locked section; its block, item and
      phase are what they were. */
  ghost predicate MovedTo(at: PlayerAt, s: State, t: State) {
    && t.playerAlive && t.player == at && !t.playerIn
    && t.scratch == s.scratch && t.item == s.item && t.afterLoop == s.afterLoop
  }

  /** Nothing more was handed to the codec, or counted. */
  ghost predicate NoneHanded(s: State, t: State) {
    t.codec == s.codec && t.totalOut == s.totalOut
  }

  /** The player is at `at`, outside every locked section, and its local block agrees with
      the recorded one. */
  ghost predicate PlayerReady(d: Device, at: PlayerAt, scratch: array<Byte>, scratchLen: nat)
    reads d, scratch
  {
    && d.Valid() && d.s.player == at && !d.s.playerIn && d.s.playerAlive
    && scratch.Length == d.cfg.block && scratchLen <= scratch.Length
    && scratch[..scratchLen] == d.s.scratch
  }

  lemma CanLock(cfg: Config, s: State)
    requires s.playerAlive && PlayerWants(s) && !s.playerIn && s.lock.None?
    ensures Next(cfg, s, ByPlayer(LockPlayer), s.(playerIn := true, lock := Some(Player)))
  {
    hide PlayerWants;
  }

  /** Lets the others run, then takes the mutex; false when the player is deleted or never
      gets it. */
  lemma SameWhenIn(s0: State, s: State)
    requires SamePlayer(s0, s)
    ensures SamePlayer(s0.(playerIn := true), s.(playerIn := true, lock := Some(Player)))
  {
  }

  method TakeForPlayer(d: Device) returns (taken: bool)
    requires d.Valid() && !Stopped(d.s) && PlayerWants(d.s) && !d.s.playerIn
    modifies d
    ensures d.Valid() && d.turns <= old(d.turns)
    ensures taken ==> d.turns < old(d.turns) && SamePlayer(old(d.s).(playerIn := true), d.s)
    ensures !taken ==> d.Silenced()
  {
    hide Next, Inv, Execution;
    while true
      invariant d.Valid() && !Stopped(d.s) && SamePlayer(old(d.s), d.s) && d.turns <= old(d.turns)
      decreases d.turns
    {
      var scheduled := d.Yield(Player);
      if !scheduled || !d.s.playerAlive {
        return false;
      }
      if d.s.lock.None? {
        CanLock(d.cfg, d.s);
        SameWhenIn(old(d.s), d.s);
        d.Do(ByPlayer(LockPlayer), d.s.(playerIn := true, lock := Some(Player)));
        return true;
      }
    }
  }

  method LetOthersRun(d: Device) returns (running: bool)
    requires d.Valid() && !Stopped(d.s)
    modifies d
    ensures d.Valid() && d.turns <= old(d.turns)
    ensures running ==> SamePlayer(old(d.s), d.s) && d.turns < old(d.turns)
    ensures !running ==> d.Silenced()
  {
    var scheduled := d.Yield(Player);
    return scheduled && d.s.playerAlive;
  }

  /** What the codec made of the block. */
  function AfterWrite(s: State, taken: bool): State {
    s.(player := if taken then Written else Refused, writeFailed := s.writeFailed || !taken,
       codec := if taken then s.codec + s.scratch else s.codec)
  }

  function AfterCount(s: State, written: nat): State {
    s.(playerIn := false, lock := None, player := if s.afterLoop then Finish else Copy,
       playing := true, totalOut := s.totalOut + written, scratch := [])
  }

  lemma CanCount(cfg: Config, s: State)
    requires s.playerAlive && s.player.Count? && s.playerIn
    ensures Next(cfg, s, ByPlayer(AddCounter), AfterCount(s, |s.scratch|))
  {
    CountsInFrame(s);
    hide PlayerFrame;
  }

  lemma CountsInFrame(s: State)
    ensures PlayerFrame(s, AfterCount(s, |s.scratch|))
  {
  }

  lemma CanWrite(cfg: Config, s: State, accepted: bool)
    requires s.playerAlive && s.player.Write? && s.playerIn
    ensures Next(cfg, s, ByPlayer(CodecWrite(accepted)), AfterWrite(s, accepted && s.codecOpen))
  {
  }

  lemma CanLeaveCodec(cfg: Config, s: State, t: State)
    requires s.playerAlive && (s.player.Written? || s.player.Refused?)
    requires t == s.(playerIn := false, lock := None, player := if s.player.Written? then Count else Failure)
    ensures Next(cfg, s, ByPlayer(DropWrite), t)
  {
  }

  lemma CopySizeIs(cfg: Config, s: State, n: nat)
    requires |s.scratch| < cfg.block && n == Min(|s.item|, cfg.block - |s.scratch|)
    ensures CopySize(cfg, s) == n
  {
  }

  lemma CanCopy(cfg: Config, s: State, t: State)
    requires s.playerAlive && s.player.Copy? && s.item != [] && |s.scratch| < cfg.block
    requires t == s.(scratch := s.scratch + s.item[..CopySize(cfg, s)], item := s.item[CopySize(cfg, s)..],
                     player := if |s.scratch| + CopySize(cfg, s) == cfg.block then Write else Copy)
    ensures Next(cfg, s, ByPlayer(CopyBytes), t)
  {
  }

  /** Inside the codec's locked section: leave it. */
  method LeaveCodec(d: Device) returns (running: bool)
    requires d.Valid() && d.s.playerAlive && (d.s.player.Written? || d.s.player.Refused?)
    modifies d
    ensures d.Valid() && d.turns <= old(d.turns)
    ensures running ==> MovedTo(if old(d.s.player).Written? then Count else Failure, old(d.s), d.s)
    ensures running ==> NoneHanded(old(d.s), d.s)
    ensures !running ==> d.Silenced()
  {
    hide Inv, Next, Execution;
    running := LetOthersRun(d);
    if !running { return; }
    var t := d.s.(playerIn := false, lock := None, player := if d.s.player.Written? then Count else Failure);
    CanLeaveCodec(d.cfg, d.s, t);
    d.Do(ByPlayer(DropWrite), t);
  }

  /** Under the mutex: hand the block to the codec. */
  method WriteBlock(d: Device, block: seq<Byte>) returns (written: bool)
    requires d.Valid() && d.s.playerAlive && d.s.player.Write? && d.s.playerIn && block == d.s.scratch
    modifies d
    ensures d.Valid() && d.turns <= old(d.turns) && d.s.playerAlive
    ensures d.s.player == (if written then Written else Refused)
    ensures d.s.scratch == block && d.s.item == old(d.s.item) && d.s.afterLoop == old(d.s.afterLoop)
    ensures d.s.codec == (if written then old(d.s.codec) + block else old(d.s.codec))
    ensures d.s.totalOut == old(d.s.totalOut)
  {
    hide Inv, Next, Execution;
    var accepted: bool := *;
    written := accepted && d.s.codecOpen;
    CanWrite(d.cfg, d.s, accepted);
    d.Do(ByPlayer(CodecWrite(accepted)), AfterWrite(d.s, written));
  }

  /** `audio_out_write_pcm_chunk`: the codec write is one locked section. */
  method CodecSection(d: Device, block: seq<Byte>) returns (running: bool, written: bool)
    requires d.Valid() && d.s.playerAlive && d.s.player.Write? && !d.s.playerIn && block == d.s.scratch
    modifies d
    ensures d.Valid() && d.turns <= old(d.turns)
    ensures running ==> MovedTo(if written then Count else Failure, old(d.s), d.s)
    ensures running ==> d.s.codec == (if written then old(d.s.codec) + block else old(d.s.codec))
    ensures running ==> d.s.totalOut == old(d.s.totalOut)
    ensures !running ==> d.Silenced()
  {
    hide Inv, Next, Execution;
    written := false;
    running := TakeForPlayer(d);
    if !running { return; }
    written := WriteBlock(d, block);
    running := LeaveCodec(d);
  }

  /** After a block was written: count it; after the loop the task is then done. */
  method CountBlock(d: Device, scratchLen: nat) returns (running: bool)
    requires d.Valid() && d.s.playerAlive && d.s.player.Count? && !d.s.playerIn && scratchLen == |d.s.scratch|
    modifies d
    ensures d.Valid() && d.turns <= old(d.turns)
    ensures running ==> MovedTo(if old(d.s.afterLoop) then Finish else Copy, old(d.s).(scratch := []), d.s)
    ensures running ==> d.s.codec == old(d.s.codec) && d.s.totalOut == old(d.s.totalOut) + scratchLen
    ensures !running ==> d.Silenced()
  {
    hide Inv, Next, Execution;
    running := TakeForPlayer(d);
    if !running { return; }
    CanCount(d.cfg, d.s);
    d.Do(ByPlayer(AddCounter), AfterCount(d.s, scratchLen));
  }

  /** After a refused write: record the error and give up. */
  method RecordFailure(d: Device) returns (running: bool)
    requires d.Valid() && d.s.playerAlive && d.s.player.Failure? && !d.s.playerIn
    modifies d
    ensures d.Valid() && d.turns <= old(d.turns)
    ensures running ==> MovedTo(Finish, old(d.s), d.s) && d.s.result == EspFail && d.s.codec == old(d.s.codec)
    ensures !running ==> d.Silenced()
  {
    hide Inv;
    running := TakeForPlayer(d);
    if !running { return; }
    d.Do(ByPlayer(StoreResult), d.s.(playerIn := false, lock := None, player := Finish, result := EspFail));
  }

  datatype Outcome = Going | Failing | Vanished

  /** What left the player's block is in the codec and counted. */
  ghost predicate Handed(s: State, t: State) {
    && t.codec + t.scratch + t.item == s.codec + s.scratch + s.item
    && t.totalOut - s.totalOut == |t.codec| - |s.codec|
  }

  /** The codec refused a block; the task reports it. */
  ghost predicate Declined(s: State, t: State) {
    && t.codec + t.scratch + t.item == s.codec + s.scratch + s.item
    && t.scratch != [] && t.result == EspFail
  }

  lemma HandedItself(s: State)
    ensures Handed(s, s)
  {
  }

  /** Bytes that move from the item into the block, or nowhere. */
  lemma HandedCopies(s0: State, s: State, t: State)
    requires Handed(s0, s) && NoneHanded(s, t) && t.scratch + t.item == s.scratch + s.item
    ensures Handed(s0, t)
  {
    assert t.codec + t.scratch + t.item == t.codec + (t.scratch + t.item);
    assert s.codec + s.scratch + s.item == s.codec + (s.scratch + s.item);
  }

  lemma HandedFurther(s0: State, s: State, t: State)
    requires Handed(s0, s)
    ensures Handed(s, t) ==> Handed(s0, t)
    ensures Declined(s, t) ==> Declined(s0, t)
  {
  }

  /** A full block goes to the codec. */
  method FlushBlock(d: Device, scratch: array<Byte>) returns (r: Outcome)
    requires PlayerReady(d, Write, scratch, scratch.Length) && !d.s.afterLoop
    modifies d
    ensures d.Valid() && d.turns <= old(d.turns)
    ensures r.Going? ==> PlayerReady(d, Copy, scratch, 0) && d.s.item == old(d.s.item) && !d.s.afterLoop
    ensures r.Going? ==> Handed(old(d.s), d.s) && d.s.scratch == []
    ensures r.Failing? ==> PlayerReady(d, Finish, scratch, scratch.Length) && Declined(old(d.s), d.s)
    ensures r.Vanished? ==> d.Silenced()
  {
    hide Inv, Next, Execution;
    var running, written := CodecSection(d, scratch[..]);
    if !running { return Vanished; }
    if written {
      running := CountBlock(d, scratch.Length);
      return if running then Going else Vanished;
    }
    running := RecordFailure(d);
    return if running then Failing else Vanished;
  }

  /** One `memcpy` of the inner loop: as much of the item as the block takes. */
  method CopyPiece(d: Device, scratch: array<Byte>, len: nat, piece: seq<Byte>) returns (running: bool, n: nat)
    requires PlayerReady(d, Copy, scratch, len) && len < d.cfg.block && !d.s.afterLoop
    requires piece == d.s.item && piece != []
    modifies d, scratch
    ensures d.Valid() && d.turns <= old(d.turns) && n == Min(|piece|, d.cfg.block - len)
    ensures running ==> PlayerReady(d, if len + n == d.cfg.block then Write else Copy, scratch, len + n)
    ensures running ==> d.s.item == piece[n..] && d.s.scratch == old(d.s.scratch) + piece[..n]
    ensures running ==> !d.s.afterLoop && NoneHanded(old(d.s), d.s)
    ensures !running ==> d.Silenced()
  {
    hide Inv, Next, Execution, CopySize;
    n := Min(|piece|, d.cfg.block - len);
    running := LetOthersRun(d);
    if !running { return; }
    CopySizeIs(d.cfg, d.s, n);
    CopyInto(scratch, len, piece[..n]);
    var t := d.s.(scratch := scratch[..len + n], item := piece[n..],
                  player := if len + n == scratch.Length then Write else Copy);
    CanCopy(d.cfg, d.s, t);
    d.Do(ByPlayer(CopyBytes), t);
  }

  /** The inner loop: the item goes into the block piece by piece, and every full block goes to
      the codec and is counted; or the codec refuses one, and the task reports it. */
  method DrainItem(d: Device, scratch: array<Byte>, len: nat) returns (r: Outcome, scratchLen: nat)
    requires PlayerReady(d, Copy, scratch, len) && len < d.cfg.block && !d.s.afterLoop
    modifies d, scratch
    ensures d.Valid() && d.turns <= old(d.turns) && scratchLen <= scratch.Length
    ensures r.Going? ==> PlayerReady(d, Copy, scratch, scratchLen) && scratchLen < d.cfg.block
                         && d.s.item == [] && !d.s.afterLoop && Handed(old(d.s), d.s)
    ensures r.Failing? ==> PlayerReady(d, Finish, scratch, scratchLen) && Declined(old(d.s), d.s)
    ensures r.Vanished? ==> d.Silenced()
  {
    hide Inv, Next, Execution, Handed, Declined;
    scratchLen := len;
    var item := d.s.item;
    var itemOffset := 0;
    assert item[0..] == item;
    HandedItself(d.s);
    while itemOffset < |item|
      invariant itemOffset <= |item| && d.s.item == item[itemOffset..] && !d.s.afterLoop
      invariant PlayerReady(d, Copy, scratch, scratchLen) && scratchLen < d.cfg.block
      invariant d.turns <= old(d.turns) && Handed(old(d.s), d.s)
    {
      ghost var before := d.s;
      var running, copyBytes := CopyPiece(d, scratch, scratchLen, item[itemOffset..]);
      if !running { return Vanished, scratchLen; }
      Moved(before.scratch, before.item, copyBytes);
      HandedCopies(old(d.s), before, d.s);
      assert item[itemOffset..][copyBytes..] == item[itemOffset + copyBytes..];
      scratchLen := scratchLen + copyBytes;
      itemOffset := itemOffset + copyBytes;
      if scratchLen == scratch.Length {
        before := d.s;
        r := FlushBlock(d, scratch);
        HandedFurther(old(d.s), before, d.s);
        if !r.Going? { return r, scratchLen; }
        scratchLen := 0;
      }
    }
    return Going, scratchLen;
  }

  lemma Moved(a: seq<Byte>, b: seq<Byte>, n: nat)
    requires n <= |b|
    ensures (a + b[..n]) + b[n..] == a + b
  {
  }

  lemma CanCheckGate(cfg: Config, s: State, ready: bool, exit: bool)
    requires s.playerAlive && s.player.Gate? && s.playerIn
    requires ready == (Level(s) >= (if s.rebuffering then cfg.rebuffer else cfg.prebuffer) || !s.started)
    requires exit == (!s.started && Level(s) == 0)
    ensures Next(cfg, s, ByPlayer(CheckGate), AfterGate(s, ready, exit))
  {
  }

  /** What the player does about the two flags it computed under the lock. */
  function AfterGate(s: State, ready: bool, exit: bool): State {
    var onward := ready && !exit;
    s.(playerIn := false, lock := None,
       player := if exit then LoopExit else if ready then Receive else if s.rebuffering then Stall else Gate,
       rebuffering := s.rebuffering && !onward, prebuffered := s.prebuffered || onward)
  }

  function AfterStarving(s: State, exit: bool, enterRebuffer: bool): State {
    s.(playerIn := false, lock := None, player := if exit then LoopExit else Gate,
       rebuffering := s.rebuffering || enterRebuffer)
  }

  lemma CanPassGate(cfg: Config, s: State)
    requires s.playerAlive && s.player.Gate? && s.prebuffered && !s.rebuffering
    ensures Next(cfg, s, ByPlayer(PassGate), s.(player := Receive))
  {
  }

  lemma CanLeaveStall(cfg: Config, s: State)
    requires s.playerAlive && s.player.Stall? && s.playerIn
    ensures Next(cfg, s, ByPlayer(DropStall), s.(playerIn := false, lock := None, player := Gate))
  {
  }

  function AfterReceive(s: State, n: nat): State
    requires n <= |s.ring|
  {
    s.(player := Copy, item := s.ring[..n], itemSize := n, ring := s.ring[n..])
  }

  lemma CanReceive(cfg: Config, s: State, n: nat)
    requires s.playerAlive && s.player.Receive? && s.ringExists && 0 < n <= |s.ring|
    ensures Next(cfg, s, ByPlayer(RingReceive(n)), AfterReceive(s, n))
  {
  }

  lemma CanStarve(cfg: Config, s: State)
    requires s.playerAlive && s.player.Receive?
    ensures Next(cfg, s, ByPlayer(RingEmpty), s.(player := Starved))
  {
  }

  lemma CanCheckStarved(cfg: Config, s: State, exit: bool)
    requires s.playerAlive && s.player.Starved? && s.playerIn
    requires exit == (!s.started && Level(s) == 0)
    ensures Next(cfg, s, ByPlayer(CheckStarved), AfterStarving(s, exit, !exit && s.playing && s.started))
  {
    StarvesInFrame(s, exit, !exit && s.playing && s.started);
    hide PlayerFrame, Level;
  }

  lemma StarvesInFrame(s: State, exit: bool, enterRebuffer: bool)
    ensures PlayerFrame(s, AfterStarving(s, exit, enterRebuffer))
  {
  }

  datatype Turn = Leave | GoOn | Again | Deleted

  /** The locked section at the top of the loop. */
  method GateSection(d: Device) returns (running: bool)
    requires d.Valid() && d.s.playerAlive && d.s.player.Gate? && !d.s.playerIn && PlayerWants(d.s)
    modifies d
    ensures d.Valid() && d.turns <= old(d.turns)
    ensures running ==> d.turns < old(d.turns) && MovedTo(d.s.player, old(d.s), d.s)
    ensures running ==> d.s.player.LoopExit? || d.s.player.Receive? || d.s.player.Stall? || d.s.player.Gate?
    ensures !running ==> d.Silenced()
  {
    hide Inv, Next, Execution, Level;
    running := TakeForPlayer(d);
    if !running { return; }
    var target := if d.s.rebuffering then d.cfg.rebuffer else d.cfg.prebuffer;
    var level := Level(d.s);
    var ready := level >= target || !d.s.started;
    var shouldExit := !d.s.started && level == 0;
    CanCheckGate(d.cfg, d.s, ready, shouldExit);
    d.Do(ByPlayer(CheckGate), AfterGate(d.s, ready, shouldExit));
  }

  /** Top of the loop: wait for the prebuffer or the rebuffer level, or leave. */
  method PassGates(d: Device) returns (r: Turn)
    requires d.Valid() && d.s.playerAlive && d.s.player.Gate? && !d.s.playerIn
    modifies d
    ensures d.Valid() && (r.Deleted? || d.turns < old(d.turns))
    ensures r.Deleted? || MovedTo(PlaceOf(r, Receive), old(d.s), d.s)
    ensures r.Deleted? ==> d.Silenced()
  {
    hide Inv, Next, Execution, Level;
    var running;
    if d.s.prebuffered && !d.s.rebuffering {
      running := LetOthersRun(d);
      if !running { return Deleted; }
      CanPassGate(d.cfg, d.s);
      d.Do(ByPlayer(PassGate), d.s.(player := Receive));
      return GoOn;
    }
    running := GateSection(d);
    if !running { return Deleted; }
    if d.s.player.Stall? {
      // the underrun counters, under the lock
      running := TakeForPlayer(d);
      if !running { return Deleted; }
      CanLeaveStall(d.cfg, d.s);
      d.Do(ByPlayer(DropStall), d.s.(playerIn := false, lock := None, player := Gate));
    }
    return if d.s.player.LoopExit? then Leave else if d.s.player.Receive? then GoOn else Again;
  }

  function PlaceOf(r: Turn, onward: PlayerAt): PlayerAt {
    if r.Leave? then LoopExit else if r.GoOn? then onward else Gate
  }

  method StarvedSection(d: Device) returns (r: Turn)
    requires d.Valid() && d.s.playerAlive && d.s.player.Starved? && !d.s.playerIn
    modifies d
    ensures d.Valid() && d.turns <= old(d.turns)
    ensures r.Leave? || r.Again? ==> MovedTo(PlaceOf(r, Gate), old(d.s), d.s)
    ensures !r.GoOn?
    ensures r.Deleted? ==> d.Silenced()
  {
    hide Inv, Next, Execution, Level;
    var running := TakeForPlayer(d);
    if !running { return Deleted; }
    var shouldExit := !d.s.started && Level(d.s) == 0;
    var enterRebuffer := !shouldExit && d.s.playing && d.s.started;
    CanCheckStarved(d.cfg, d.s, shouldExit);
    d.Do(ByPlayer(CheckStarved), AfterStarving(d.s, shouldExit, enterRebuffer));
    return if shouldExit then Leave else Again;
  }

  /** The receive timed out: check whether the stream is over. */
  method Starve(d: Device) returns (r: Turn)
    requires d.Valid() && d.s.playerAlive && d.s.player.Receive? && !d.s.playerIn
    modifies d
    ensures d.Valid() && d.turns <= old(d.turns)
    ensures r.Leave? || r.Again? ==> MovedTo(PlaceOf(r, Gate), old(d.s), d.s)
    ensures !r.GoOn?
    ensures r.Deleted? ==> d.Silenced()
  {
    hide Inv, Next, Execution;
    CanStarve(d.cfg, d.s);
    d.Do(ByPlayer(RingEmpty), d.s.(player := Starved));
    r := StarvedSection(d);
  }

  /** Takes some of what the ring holds; on a timeout checks whether the stream is over. */
  lemma StillThere(s0: State, s: State)
    requires SamePlayer(s0, s)
    ensures s.playerAlive == s0.playerAlive && s.player == s0.player && s.playerIn == s0.playerIn
    ensures s.scratch == s0.scratch && s.item == s0.item && s.afterLoop == s0.afterLoop
    ensures forall at, t :: MovedTo(at, s, t) ==> MovedTo(at, s0, t)
  {
  }

  lemma ReceivedMoves(s0: State, s: State, n: nat)
    requires SamePlayer(s0, s) && s0.playerAlive && !s0.playerIn && n <= |s.ring|
    ensures MovedTo(Copy, s0.(item := AfterReceive(s, n).item), AfterReceive(s, n))
  {
  }

  method ReceiveItem(d: Device) returns (r: Turn)
    requires d.Valid() && d.s.playerAlive && d.s.player.Receive? && !d.s.playerIn
    modifies d
    ensures d.Valid() && d.turns <= old(d.turns)
    ensures r.GoOn? ==> MovedTo(Copy, old(d.s).(item := d.s.item), d.s)
    ensures r.Leave? || r.Again? ==> MovedTo(PlaceOf(r, Copy), old(d.s), d.s)
    ensures r.Deleted? ==> d.Silenced()
  {
    hide Inv, Next, Execution, MovedTo, SamePlayer;
    var running := LetOthersRun(d);
    if !running { return Deleted; }
    StillThere(old(d.s), d.s);
    var n: int := *;
    if d.s.ringExists && 0 < n <= |d.s.ring| {
      CanReceive(d.cfg, d.s, n);
      ReceivedMoves(old(d.s), d.s, n);
      d.Do(ByPlayer(RingReceive(n)), AfterReceive(d.s, n));
      return GoOn;
    }
    r := Starve(d);
  }

  lemma CanReturn(cfg: Config, s: State)
    requires s.playerAlive && s.player.Copy? && s.item == []
    ensures Next(cfg, s, ByPlayer(ReturnItem), s.(player := Gate, itemSize := 0))
  {
  }

  /** `vRingbufferReturnItem`. */
  method GiveBackItem(d: Device, scratch: array<Byte>, len: nat) returns (r: Outcome)
    requires PlayerReady(d, Copy, scratch, len) && d.s.item == [] && !d.s.afterLoop
    modifies d
    ensures d.Valid() && !r.Failing?
    ensures r.Going? ==> PlayerReady(d, Gate, scratch, len) && d.s.item == [] && !d.s.afterLoop
    ensures r.Going? ==> d.turns < old(d.turns)
    ensures r.Vanished? ==> d.Silenced()
  {
    hide Inv, Next, Execution;
    var running := LetOthersRun(d);
    if !running { return Vanished; }
    CanReturn(d.cfg, d.s);
    d.Do(ByPlayer(ReturnItem), d.s.(player := Gate, itemSize := 0));
    return Going;
  }

  /** One iteration of the outer loop. */
  method OneTurn(d: Device, scratch: array<Byte>, len: nat) returns (r: Outcome, leave: bool, scratchLen: nat)
    requires PlayerReady(d, Gate, scratch, len) && len < d.cfg.block && d.s.item == [] && !d.s.afterLoop
    modifies d, scratch
    ensures d.Valid() && scratchLen <= scratch.Length
    ensures r.Going? ==> PlayerReady(d, if leave then LoopExit else Gate, scratch, scratchLen)
                         && scratchLen < d.cfg.block && d.s.item == [] && !d.s.afterLoop && d.turns < old(d.turns)
    ensures r.Failing? ==> PlayerReady(d, Finish, scratch, scratchLen)
    ensures r.Vanished? ==> d.Silenced()
  {
    hide Inv, Next, Execution;
    scratchLen, leave := len, false;
    var turn := PassGates(d);
    if turn.Deleted? { return Vanished, false, len; }
    if turn.GoOn? {
      turn := ReceiveItem(d);
      if turn.Deleted? { return Vanished, false, len; }
      if turn.GoOn? {
        r, scratchLen := DrainItem(d, scratch, len);
        if r.Going? {
          r := GiveBackItem(d, scratch, scratchLen);
        }
        return;
      }
    }
    return Going, turn.Leave?, len;
  }

  /** Behind the loop: the codec is offered the partial block. */
  method WriteTail(d: Device, block: seq<Byte>) returns (running: bool)
    requires d.Valid() && d.s.playerAlive && d.s.player.Write? && !d.s.playerIn && d.s.afterLoop
    requires block == d.s.scratch && block != []
    modifies d
    ensures d.Valid()
    ensures running ==> d.s.playerAlive && d.s.player.Finish? && !d.s.playerIn && d.s.item == old(d.s.item)
    ensures running ==> (Handed(old(d.s), d.s) && d.s.scratch == []) || Declined(old(d.s), d.s)
    ensures !running ==> d.Silenced()
  {
    hide Inv, Execution;
    var written;
    running, written := CodecSection(d, block);
    if !running { return; }
    if written {
      running := CountBlock(d, |block|);
    } else {
      running := RecordFailure(d);
    }
  }

  /** A partial block, if there is one, still goes to the codec. */
  method PlayTail(d: Device, scratch: array<Byte>, scratchLen: nat) returns (running: bool)
    requires PlayerReady(d, LoopExit, scratch, scratchLen)
    modifies d
    ensures d.Valid()
    ensures running ==> d.s.playerAlive && d.s.player.Finish? && !d.s.playerIn && d.s.item == old(d.s.item)
    ensures running ==> (Handed(old(d.s), d.s) && d.s.scratch == []) || Declined(old(d.s), d.s)
    ensures !running ==> d.Silenced()
  {
    hide Inv, Execution;
    running := LetOthersRun(d);
    if !running { return; }
    d.Do(ByPlayer(LeaveLoop), d.s.(afterLoop := true, player := if scratchLen > 0 then Write else Finish));
    if scratchLen > 0 {
      running := WriteTail(d, scratch[..scratchLen]);
    }
  }

  method FinishTask(d: Device) returns (finished: bool)
    requires d.Valid() && d.s.player.Finish? && !d.s.playerIn && d.s.playerAlive
    modifies d
    ensures d.Valid() && (finished ==> d.s.player.Gone? && d.s.done)
    ensures !finished ==> d.Silenced()
  {
    hide Inv, Execution;
    finished := TakeForPlayer(d);
    if finished {
      d.Do(ByPlayer(SetDone), d.s.(playerIn := false, lock := None, player := Gone, done := true));
    }
  }

  /** `audio_stream_task`. */
  method AudioStreamTask(d: Device) returns (finished: bool)
    requires d.Valid() && d.s.player.Gate? && !d.s.playerIn && d.s.playerAlive
    requires d.s.scratch == [] && d.s.item == [] && !d.s.afterLoop
    modifies d
    ensures d.Valid()
    ensures finished ==> d.s.player.Gone? && d.s.done
    ensures !finished ==> d.Silenced()
  {
    hide Inv, Next, Execution;
    var scratch := new Byte[d.cfg.block](_ => 0);
    var scratchLen: nat := 0;
    var leave := false;
    while !leave
      invariant fresh(scratch) && PlayerReady(d, if leave then LoopExit else Gate, scratch, scratchLen)
      invariant !d.s.afterLoop && d.s.item == [] && scratchLen < d.cfg.block
      decreases d.turns
    {
      var r;
      r, leave, scratchLen := OneTurn(d, scratch, scratchLen);
      if r.Vanished? { return false; }
      if r.Failing? {
        finished := FinishTask(d);
        return;
      }
    }
    var running := PlayTail(d, scratch, scratchLen);
    if !running { return false; }
    finished := FinishTask(d);
  }

  // ---------------------------------------------------------------- closer

  /** Waits for the mutex, which an orphaned owner never gives back. */
  method TakeForCloser(d: Device) returns (taken: bool)
    requires d.Valid() && CloserWants(d.s.closer) && !d.s.closerIn
    modifies d
    ensures d.Valid() && d.turns <= old(d.turns)
    ensures d.s.closer == old(d.s.closer) && d.s.closerIn == taken && (taken ==> d.turns < old(d.turns))
    ensures !taken ==> d.turns == 0
  {
    hide Inv, Execution, ProducerStep, PlayerStep;
    while true
      invariant d.Valid() && Leaves(Closer, old(d.s), d.s) && d.turns <= old(d.turns)
      decreases d.turns
    {
      var scheduled := d.Yield(Closer);
      if !scheduled {
        return false;
      }
      if d.s.lock.None? {
        d.Do(ByCloser(LockCloser), d.s.(closerIn := true, lock := Some(Closer)));
        return true;
      }
    }
  }

  lemma CanPoll(cfg: Config, s: State)
    requires s.closer.Poll? && s.closerIn
    ensures Next(cfg, s, ByCloser(ReadPoll),
                 s.(closer := Decide(s.done, s.playing && Level(s) <= cfg.tolerance), closerIn := false, lock := None))
  {
  }

  lemma CanDecide(cfg: Config, s: State)
    requires s.closer.Decide?
    ensures s.closer.sawDone ==> Next(cfg, s, ByCloser(SeeDone), s.(closer := Final, cause := Completed))
    ensures !s.closer.sawDone && s.closer.sawTail ==> Next(cfg, s, ByCloser(SeeTail), s.(closer := Tail))
    ensures !s.closer.sawDone && !s.closer.sawTail ==>
              && Next(cfg, s, ByCloser(GiveUp), s.(closer := Kill))
              && Next(cfg, s, ByCloser(PollAgain), s.(closer := Poll))
  {
  }

  /** One round of the waiting loop: read the flags under the lock, then decide. */
  method PollOnce(d: Device) returns (running: bool)
    requires d.Valid() && d.s.closer.Poll? && !d.s.closerIn
    modifies d
    ensures d.Valid() && d.turns <= old(d.turns)
    ensures running ==> d.turns < old(d.turns) && !d.s.closerIn
                        && (d.s.closer.Final? || d.s.closer.Tail? || d.s.closer.Kill? || d.s.closer.Poll?)
    ensures !running ==> d.turns == 0
  {
    hide Inv, Execution, Next, Level;
    running := TakeForCloser(d);
    if !running { return; }
    CanPoll(d.cfg, d.s);
    var taskDone := d.s.done;
    var tailWithinTolerance := d.s.playing && Level(d.s) <= d.cfg.tolerance;
    d.Do(ByCloser(ReadPoll), d.s.(closer := Decide(taskDone, tailWithinTolerance), closerIn := false, lock := None));
    running := d.Yield(Closer);
    if !running { return; }
    CanDecide(d.cfg, d.s);
    if taskDone {
      d.Do(ByCloser(SeeDone), d.s.(closer := Final, cause := Completed));
    } else if tailWithinTolerance {
      d.Do(ByCloser(SeeTail), d.s.(closer := Tail));
    } else {
      var timedOut: bool := *;
      if timedOut {
        d.Do(ByCloser(GiveUp), d.s.(closer := Kill));
      } else {
        d.Do(ByCloser(PollAgain), d.s.(closer := Poll));
      }
    }
  }

  method AcceptTailSection(d: Device) returns (running: bool)
    requires d.Valid() && d.s.closer.Tail? && !d.s.closerIn
    modifies d
    ensures d.Valid() && (running ==> d.s.closer.Final? && !d.s.closerIn)
    ensures !running ==> d.turns == 0
  {
    hide Inv, Execution, ProducerStep, PlayerStep;
    running := TakeForCloser(d);
    if running {
      d.Do(ByCloser(AcceptTail),
           d.s.(closer := Final, closerIn := false, lock := None, cause := TailAccepted, result := EspOk,
                playerAlive := d.s.player.Gone?, hasTask := false, done := true));
    }
  }

  /** The timeout branch deletes the player without holding the mutex, then asks for it. */
  method ForceDelete(d: Device) returns (running: bool)
    requires d.Valid() && d.s.closer.Kill? && !d.s.closerIn
    modifies d
    ensures d.Valid() && (running ==> d.s.closer.Final? && !d.s.closerIn)
    ensures !running ==> d.turns == 0
  {
    hide Inv, Execution, ProducerStep, PlayerStep;
    running := d.Yield(Closer);
    if !running { return; }
    d.Do(ByCloser(DeletePlayer),
         d.s.(closer := Killed, cause := ForcedDelete, playerAlive := d.s.player.Gone?, deletedInside := d.s.playerIn));
    running := TakeForCloser(d);
    if running {
      d.Do(ByCloser(MarkTimeout),
           d.s.(closer := Final, closerIn := false, lock := None, hasTask := false, done := true,
                result := EspTimeout));
    }
  }

  method CleanupSection(d: Device) returns (code: Code)
    requires d.Valid() && d.s.closer.Final? && d.s.closerIn
    modifies d
    ensures d.Valid() && d.s.closer == Returned(code) && d.s.producerLate == old(d.s.producerLate)
  {
    hide Inv, Execution, Next, AfterCleanup;
    var codecClosed: bool := *;
    code := if d.s.result != EspOk then d.s.result else if codecClosed then EspOk else EspFail;
    var t := AfterCleanup(d.s, codecClosed, code);
    CanCleanUp(d.cfg, d.s, codecClosed, code);
    d.Do(ByCloser(Cleanup(codecClosed)), t);
  }

  function AfterCleanup(s: State, codecClosed: bool, code: Code): State {
    s.(closer := Returned(code), closerIn := false, lock := None,
       codecOpen := s.codecOpen && !codecClosed, hasTask := false, done := true,
       lost := Waiting(s) + s.item + s.ring, ringExists := false, ring := [], item := [], scratch := [],
       totalIn := 0, totalOut := 0, playing := false)
  }

  lemma CanCleanUp(cfg: Config, s: State, codecClosed: bool, code: Code)
    requires s.closer.Final? && s.closerIn
    requires code == if s.result != EspOk then s.result else if codecClosed then EspOk else EspFail
    ensures var t := AfterCleanup(s, codecClosed, code);
            && Next(cfg, s, ByCloser(Cleanup(codecClosed)), t)
            && t.closer == Returned(code) && t.producerLate == s.producerLate
  {
    hide Waiting;
  }

  /** The part of the close before its cleanup: ends inside the final locked section. */
  method WaitForPlayer(d: Device) returns (running: bool)
    requires d.Valid() && d.s.closer.Begin? && !d.s.closerIn
    modifies d
    ensures d.Valid() && (running ==> d.s.closer.Final? && d.s.closerIn)
    ensures !running ==> d.turns == 0
  {
    hide Inv, Execution, ProducerStep, PlayerStep;
    running := TakeForCloser(d);
    if !running { return; }
    if !d.s.hasTask {
      d.Do(ByCloser(AskToStop), d.s.(closer := Final, cause := NoTask, producerLate := !d.s.producer.Idle?));
      return;
    }
    d.Do(ByCloser(AskToStop),
         d.s.(closer := Poll, closerIn := false, lock := None, started := false, cause := Pending,
              producerLate := !d.s.producer.Idle?));
    while d.s.closer.Poll?
      invariant d.Valid() && !d.s.closerIn
      invariant d.s.closer.Final? || d.s.closer.Tail? || d.s.closer.Kill? || d.s.closer.Poll?
      decreases d.turns
    {
      running := PollOnce(d);
      if !running { return; }
    }
    if d.s.closer.Tail? {
      running := AcceptTailSection(d);
      if !running { return; }
    } else if d.s.closer.Kill? {
      running := ForceDelete(d);
      if !running { return; }
    }
    running := TakeForCloser(d);
  }

  /** `audio_out_close_pcm_stream_with_metrics`. If it returns ESP_OK and the producer had
      finished, at most the tolerated tail is missing from what the codec got; if it returns an
      error, the codec refused a block or its close, or the closer gave the player up. */
  method CloseStream(d: Device) returns (returned: bool, code: Code)
    requires d.Valid() && d.s.closer.Begin? && !d.s.closerIn
    modifies d
    ensures d.Valid() && (returned ==> d.s.closer == Returned(code))
    ensures returned && code == EspOk && !d.s.producerLate ==>
              && d.s.codec <= d.s.enqueued
              && |d.s.enqueued| <= |d.s.codec| + d.cfg.tolerance
              && (d.s.cause != TailAccepted ==> d.s.codec == d.s.enqueued)
    ensures returned && code == EspFail ==>
              exists k :: 0 <= k < |d.steps| && d.steps[k] in {ByPlayer(CodecWrite(false)), ByCloser(Cleanup(false))}
    ensures returned && code == EspTimeout ==> exists k :: 0 <= k < |d.steps| && d.steps[k] == ByCloser(GiveUp)
    ensures !returned ==> d.turns == 0
  {
    hide Inv, Next;
    code := EspFail;
    returned := WaitForPlayer(d);
    if returned {
      code := CleanupSection(d);
      if code == EspOk && !d.s.producerLate {
        CloseLosesAtMostTail(d.cfg, d.states, d.steps, |d.steps|);
      }
      CloseErrorHasCause(d.cfg, d.states, d.steps, |d.steps|);
    }
  }

  // ---------------------------------------------------------------- producer

  /** Lets the others run; false when the producer is deleted or never runs again. */
  method RunProducer(d: Device) returns (running: bool)
    requires d.Valid()
    modifies d
    ensures d.Valid() && d.turns <= old(d.turns) && Leaves(Producer, old(d.s), d.s)
    ensures running ==> d.turns < old(d.turns) && d.s.producerAlive
    ensures !running ==> d.turns == 0 || !d.s.producerAlive
  {
    var scheduled := d.Yield(Producer);
    return scheduled && d.s.producerAlive;
  }

  method TakeForProducer(d: Device) returns (taken: bool)
    requires d.Valid() && ProducerWants(d.s.producer) && !d.s.producerIn
    modifies d
    ensures d.Valid() && d.s.enqueued == old(d.s.enqueued)
    ensures d.s.producer == old(d.s.producer) && d.s.producerIn == taken && (taken ==> d.s.producerAlive)
    ensures !taken ==> d.turns == 0 || !d.s.producerAlive
  {
    hide Inv, Execution, PlayerStep, CloserStep;
    while true
      invariant d.Valid() && Leaves(Producer, old(d.s), d.s)
      decreases d.turns
    {
      var running := RunProducer(d);
      if !running {
        return false;
      }
      if d.s.lock.None? {
        d.Do(ByProducer(LockIn), d.s.(producerIn := true, lock := Some(Producer)));
        return true;
      }
    }
  }

  datatype WriteCode = Sent | InvalidArg | InvalidSize | InvalidState | NoMemory | StreamFailed | SendTimeout | NotRun

  lemma CanOpen(cfg: Config, s: State)
    requires s.producerAlive && s.producer.Enter? && s.codecOpen
    ensures s.started ==>
              Next(cfg, s, ByProducer(PlayerRuns),
                   s.(producer := AfterResult(s), producerIn := false, lock := None, ringExists := true))
    ensures !s.started ==>
              Next(cfg, s, ByProducer(StartPlayer),
                   s.(producer := AfterResult(s), producerIn := false, lock := None, ringExists := true,
                      started := true, done := false, hasTask := true, player := Gate))
              && Next(cfg, s, ByProducer(TaskRefused),
                      s.(producer := Idle, producerIn := false, lock := None, ringExists := true,
                         hasTask := false, done := true))
  {
  }

  lemma CanRefuse(cfg: Config, s: State, ringCreated: bool)
    requires s.producerAlive && s.producer.Enter? && (!s.codecOpen || !(s.ringExists || ringCreated))
    ensures Next(cfg, s, ByProducer(WriteRefused(ringCreated)), s.(producer := Idle, producerIn := false, lock := None))
  {
  }

  method RefuseWrite(d: Device, memoryLeft: bool)
    requires d.Valid() && d.s.producerAlive && d.s.producer.Enter?
    requires !d.s.codecOpen || !(d.s.ringExists || memoryLeft)
    modifies d
    ensures d.Valid() && d.s.enqueued == old(d.s.enqueued) && d.s.producer.Idle? && !d.s.producerIn
    ensures d.s.result == old(d.s.result) && d.s.codecOpen == old(d.s.codecOpen)
  {
    hide Inv, Execution, Next;
    CanRefuse(d.cfg, d.s, memoryLeft);
    d.Do(ByProducer(WriteRefused(memoryLeft)), d.s.(producer := Idle, producerIn := false, lock := None));
  }

  method StartTask(d: Device, taskCreated: bool)
    requires d.Valid() && d.s.producerAlive && d.s.producer.Enter? && d.s.codecOpen && !d.s.started
    modifies d
    ensures d.Valid() && d.s.enqueued == old(d.s.enqueued) && !d.s.producerIn
    ensures d.s.producer == if taskCreated then AfterResult(old(d.s)) else Idle
    ensures d.s.result == old(d.s.result)
  {
    hide Inv, Execution, Next, AfterResult;
    CanOpen(d.cfg, d.s);
    if taskCreated {
      d.Do(ByProducer(StartPlayer),
           d.s.(producer := AfterResult(d.s), producerIn := false, lock := None, ringExists := true,
                started := true, done := false, hasTask := true, player := Gate));
    } else {
      d.Do(ByProducer(TaskRefused),
           d.s.(producer := Idle, producerIn := false, lock := None, ringExists := true, hasTask := false,
                done := true));
    }
  }

  method KeepTask(d: Device)
    requires d.Valid() && d.s.producerAlive && d.s.producer.Enter? && d.s.codecOpen && d.s.started
    modifies d
    ensures d.Valid() && d.s.enqueued == old(d.s.enqueued) && !d.s.producerIn
    ensures d.s.producer == AfterResult(old(d.s)) && d.s.result == old(d.s.result)
  {
    hide Inv, Execution, Next, AfterResult;
    CanOpen(d.cfg, d.s);
    d.Do(ByProducer(PlayerRuns),
         d.s.(producer := AfterResult(d.s), producerIn := false, lock := None, ringExists := true));
  }

  /** First locked section: the codec must be open; the ring and the task are created, as far as
      there is memory for them. */
  method OpenSection(d: Device, pcm: seq<Byte>, ringFits: bool, taskFits: bool) returns (r: WriteCode)
    requires d.Valid() && d.s.producerAlive && d.s.producer == Enter(pcm) && d.s.producerIn
    modifies d
    ensures d.Valid() && d.s.enqueued == old(d.s.enqueued)
    ensures r.Sent? || r.InvalidState? || r.NoMemory? || r.StreamFailed?
    ensures (r.InvalidState? ==> !d.s.codecOpen) && (r.StreamFailed? ==> d.s.result != EspOk)
    ensures r.NoMemory? ==> (!ringFits && !old(d.s.ringExists)) || (!taskFits && !old(d.s.started))
    ensures r.Sent? ==> old(d.s.codecOpen) && old(d.s.result) == EspOk
    ensures (r.Sent? ==> d.s.producer == Stamp(pcm)) && (!r.Sent? ==> d.s.producer.Idle?) && !d.s.producerIn
  {
    hide Inv, Execution, Next;
    if !d.s.codecOpen || !(d.s.ringExists || ringFits) {
      r := InvalidState;
      if d.s.codecOpen { r := NoMemory; }
      RefuseWrite(d, ringFits);
    } else {
      r := JoinTask(d, pcm, taskFits);
    }
  }

  method JoinTask(d: Device, pcm: seq<Byte>, taskFits: bool) returns (r: WriteCode)
    requires d.Valid() && d.s.producerAlive && d.s.producer == Enter(pcm) && d.s.producerIn && d.s.codecOpen
    modifies d
    ensures d.Valid() && d.s.enqueued == old(d.s.enqueued)
    ensures (r.Sent? || r.NoMemory? || r.StreamFailed?) && (r.StreamFailed? ==> d.s.result != EspOk)
    ensures r.NoMemory? ==> !taskFits && !old(d.s.started)
    ensures r.Sent? ==> old(d.s.result) == EspOk
    ensures (r.Sent? ==> d.s.producer == Stamp(pcm)) && (!r.Sent? ==> d.s.producer.Idle?) && !d.s.producerIn
  {
    hide Inv, Execution, Next;
    r := StreamFailed;
    if d.s.result == EspOk { r := Sent; }
    if d.s.started {
      KeepTask(d);
    } else {
      StartTask(d, taskFits);
      if !taskFits { r := NoMemory; }
    }
  }

  lemma CanSend(cfg: Config, s: State)
    requires s.producerAlive && s.producer.Send?
    ensures Next(cfg, s, ByProducer(RingFull), s.(producer := Idle))
    ensures s.ringExists && |s.ring| + s.itemSize + |s.producer.chunk| <= cfg.capacity ==>
              Next(cfg, s, ByProducer(RingSend),
                   s.(producer := CountIn(|s.producer.chunk|),
                      ring := s.ring + s.producer.chunk, enqueued := s.enqueued + s.producer.chunk))
  {
  }

  lemma CanCountIn(cfg: Config, s: State)
    requires s.producerAlive && s.producer.CountIn? && s.producerIn
    ensures Next(cfg, s, ByProducer(AddCount),
                 s.(producer := Idle, producerIn := false, lock := None, totalIn := s.totalIn + s.producer.sent))
  {
  }

  predicate Room(d: Device, pcm: seq<Byte>)
    reads d
  {
    d.s.ringExists && |d.s.ring| + d.s.itemSize + |pcm| <= d.cfg.capacity
  }

  /** The ring takes the chunk in one piece, or there is no room for it; then it is counted. */
  method SendSection(d: Device, pcm: seq<Byte>) returns (r: WriteCode)
    requires d.Valid() && d.s.producer == Send(pcm) && !d.s.producerIn
    modifies d
    ensures d.Valid() && (r.Sent? || r.SendTimeout? || r.NotRun?)
    ensures r.Sent? ==> d.s.enqueued == old(d.s.enqueued) + pcm && d.s.producer.Idle?
    ensures r.SendTimeout? ==> d.s.enqueued == old(d.s.enqueued) && !Room(d, pcm)
    ensures r.NotRun? ==> d.turns == 0 || !d.s.producerAlive
  {
    hide Inv, Execution, Next;
    var running := RunProducer(d);
    if !running { return NotRun; }
    CanSend(d.cfg, d.s);
    if !Room(d, pcm) {
      d.Do(ByProducer(RingFull), d.s.(producer := Idle));
      return SendTimeout;
    }
    d.Do(ByProducer(RingSend),
         d.s.(producer := CountIn(|pcm|), ring := d.s.ring + pcm, enqueued := d.s.enqueued + pcm));
    running := TakeForProducer(d);
    if !running { return NotRun; }
    CanCountIn(d.cfg, d.s);
    d.Do(ByProducer(AddCount),
         d.s.(producer := Idle, producerIn := false, lock := None, totalIn := d.s.totalIn + |pcm|));
    return Sent;
  }

  /** `audio_out_write_pcm_chunk_buffered`: all of the chunk is enqueued or none of it. */
  method WriteBuffered(d: Device, pcm: seq<Byte>, ringFits: bool, taskFits: bool) returns (r: WriteCode)
    requires d.Valid() && d.s.producer.Idle? && d.s.producerAlive
    modifies d
    ensures d.Valid()
    ensures r.Sent? ==> |pcm| > 0 && |pcm| % 2 == 0 && d.s.enqueued == old(d.s.enqueued) + pcm
    ensures !r.Sent? && !r.NotRun? ==> d.s.enqueued == old(d.s.enqueued)
    ensures r.InvalidArg? <==> |pcm| == 0
    ensures r.InvalidSize? <==> |pcm| % 2 != 0
    ensures r.SendTimeout? ==> !Room(d, pcm)
    ensures (r.InvalidState? ==> !d.s.codecOpen) && (r.StreamFailed? ==> d.s.result != EspOk)
    ensures r.NoMemory? ==> !ringFits || !taskFits
    ensures r.NotRun? ==> d.turns == 0 || !d.s.producerAlive || !d.s.closer.Begin? || d.s.closerIn
  {
    hide Inv, Execution, PlayerStep, CloserStep;
    if |pcm| == 0 { return InvalidArg; }
    if |pcm| % 2 != 0 { return InvalidSize; }
    while !d.s.lock.None?
      invariant d.Valid() && Leaves(Producer, old(d.s), d.s) && d.s.producerAlive
      decreases d.turns
    {
      var running := RunProducer(d);
      if !running { return NotRun; }
    }
    if !d.s.closer.Begin? || d.s.closerIn {
      // a close has begun in the meantime; the model ends here
      return NotRun;
    }
    d.Do(ByProducer(EnterWrite(pcm)), d.s.(producer := Enter(pcm), producerIn := true, lock := Some(Producer)));
    r := OpenSection(d, pcm, ringFits, taskFits);
    if !r.Sent? { return; }
    var running := TakeForProducer(d);
    if !running { return NotRun; }
    d.Do(ByProducer(DropStamp), d.s.(producer := Send(pcm), producerIn := false, lock := None));
    r := SendSection(d, pcm);
  }

  function Actor(step: Step): Task {
    match step
    case ByProducer(_) => Producer
    case ByPlayer(_) => Player
    case ByCloser(_) => Closer
  }

  /** What a task can rely on while others run. */
  ghost predicate Leaves(self: Task, s: State, t: State) {
    match self
    case Player => !Stopped(s) ==> !t.playerAlive || SamePlayer(s, t)
    case Closer => t.closer == s.closer && t.closerIn == s.closerIn && t.cause == s.cause
    case Producer => t.producer == s.producer && t.producerIn == s.producerIn && t.enqueued == s.enqueued
  }

  ghost predicate SamePlayer(s: State, t: State) {
    && t.playerAlive == s.playerAlive && t.player == s.player && t.playerIn == s.playerIn
    && t.item == s.item && t.itemSize == s.itemSize && t.scratch == s.scratch
    && t.prebuffered == s.prebuffered && t.rebuffering == s.rebuffering && t.afterLoop == s.afterLoop
    && t.codec == s.codec && t.totalOut == s.totalOut
  }

  lemma LeavesItself(self: Task, s: State)
    ensures Leaves(self, s, s)
  {
  }

  lemma ProducerLeaves(cfg: Config, u: State, a: ProducerAction, t: State)
    requires Life(u) && ProducerStep(cfg, u, a, t)
    ensures t.closer == u.closer && t.closerIn == u.closerIn && t.cause == u.cause && t.playerAlive == u.playerAlive
    ensures !u.player.NotCreated? ==> SamePlayer(u, t)
  {
    hide AfterResult;
    match a
    case EnterWrite(_) => case WriteRefused(_) => case TaskRefused => case StartPlayer => case PlayerRuns =>
    case LockIn => case DropStamp => case RingSend => case RingFull => case AddCount =>
  }

  lemma CloserLeavesProducer(cfg: Config, u: State, a: CloserAction, t: State)
    requires CloserStep(cfg, u, a, t)
    ensures t.producer == u.producer && t.producerIn == u.producerIn && t.enqueued == u.enqueued
  {
    hide Level, Waiting, CloserWants;
    match a
    case DeleteProducer => case LockCloser => case AskToStop => case ReadPoll => case SeeDone => case SeeTail =>
    case GiveUp => case PollAgain => case AcceptTail => case DeletePlayer => case MarkTimeout => case Cleanup(_) =>
  }

  lemma CloserLeavesPlayer(cfg: Config, u: State, a: CloserAction, t: State)
    requires Phases(u) && Deletion(u) && CloserStep(cfg, u, a, t)
    ensures !Stopped(u) && t.playerAlive ==> SamePlayer(u, t)
    ensures !u.playerAlive && !u.player.Gone? ==> !t.playerAlive
  {
    hide Level, Waiting, CloserWants;
    match a
    case DeleteProducer => case LockCloser => case AskToStop => case ReadPoll => case SeeDone => case SeeTail =>
    case GiveUp => case PollAgain => case AcceptTail => case DeletePlayer => case MarkTimeout => case Cleanup(_) =>
  }

  lemma OthersLeave(cfg: Config, self: Task, s: State, u: State, step: Step, t: State)
    requires Inv(cfg, u) && Leaves(self, s, u) && Next(cfg, u, step, t) && Actor(step) != self
    ensures Leaves(self, s, t)
  {
    hide ProducerStep, PlayerStep, CloserStep;
    match step
    case ByProducer(a) => ProducerLeaves(cfg, u, a, t);
    case ByPlayer(a) => PlayerKeepsFrame(cfg, u, a, t);
    case ByCloser(a) =>
      CloserLeavesProducer(cfg, u, a, t);
      CloserLeavesPlayer(cfg, u, a, t);
  }
}

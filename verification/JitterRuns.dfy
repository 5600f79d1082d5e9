/** Runs of the playback jitter buffer that show what its theorems leave open: for every
    configuration one in which the mutex is orphaned by the deletion of the player or of the
    producer, one that loses exactly the tolerated tail, and one that deletes a player that has
    ended. */
module JitterRuns {
  import opened Bytes
  import opened JitterBuffer

  lemma Extend(cfg: Config, states: seq<State>, steps: seq<Step>, step: Step, t: State)
    returns (states': seq<State>, steps': seq<Step>)
    requires Execution(cfg, states, steps) && Next(cfg, states[|steps|], step, t)
    ensures Execution(cfg, states', steps') && |states'| == |steps'| + 1 && states'[|steps'|] == t
    ensures steps' == steps + [step] && states' == states + [t]
  {
    hide Next;
    states', steps' := states + [t], steps + [step];
    ExtendRun(cfg, states, steps, step, t);
  }

  lemma Start(cfg: Config) returns (states: seq<State>, steps: seq<Step>)
    requires cfg.Valid()
    ensures Execution(cfg, states, steps) && |states| == |steps| + 1 && states[|steps|] == Init()
  {
    states, steps := [Init()], [];
  }

  // ---------------------------------------------------------------- up to the first block

  function Entered(data: seq<Byte>): State {
    Init().(producer := Enter(data), producerIn := true, lock := Some(Producer))
  }

  /** The producer has put its bytes into the ring and is done. */
  function Filled(data: seq<Byte>): State {
    Init().(ringExists := true, started := true, done := false, hasTask := true, player := Gate,
            ring := data, enqueued := data, totalIn := |data|)
  }

  lemma ReachFilled(cfg: Config, data: seq<Byte>) returns (states: seq<State>, steps: seq<Step>)
    requires cfg.Valid() && 0 < |data| <= cfg.capacity
    ensures Execution(cfg, states, steps) && |states| == |steps| + 1 && states[|steps|] == Filled(data)
  {
    hide Execution;
    assert [] + data == data;
    states, steps := Start(cfg);
    states, steps := Extend(cfg, states, steps, ByProducer(EnterWrite(data)), Entered(data));
    var s1 := Filled(data).(producer := Stamp(data), ring := [], enqueued := [], totalIn := 0);
    states, steps := Extend(cfg, states, steps, ByProducer(StartPlayer), s1);
    var s2 := s1.(producerIn := true, lock := Some(Producer));
    states, steps := Extend(cfg, states, steps, ByProducer(LockIn), s2);
    var s3 := s1.(producer := Send(data));
    states, steps := Extend(cfg, states, steps, ByProducer(DropStamp), s3);
    var s4 := Filled(data).(producer := CountIn(|data|), totalIn := 0);
    states, steps := Extend(cfg, states, steps, ByProducer(RingSend), s4);
    var s5 := s4.(producerIn := true, lock := Some(Producer));
    states, steps := Extend(cfg, states, steps, ByProducer(LockIn), s5);
    states, steps := Extend(cfg, states, steps, ByProducer(AddCount), Filled(data));
  }

  /** The close has begun, and the player holds the first block. */
  function AtWrite(cfg: Config, data: seq<Byte>): State
    requires cfg.block <= |data|
  {
    Filled(data).(started := false, closer := Poll, player := Write, prebuffered := true, itemSize := cfg.block,
                  ring := data[cfg.block..], scratch := data[..cfg.block])
  }

  lemma ReachWrite(cfg: Config, data: seq<Byte>) returns (states: seq<State>, steps: seq<Step>)
    requires cfg.Valid() && cfg.block <= |data| <= cfg.capacity
    ensures Execution(cfg, states, steps) && |states| == |steps| + 1 && states[|steps|] == AtWrite(cfg, data)
  {
    hide Execution;
    states, steps := ReachFilled(cfg, data);
    var s1 := Filled(data).(closerIn := true, lock := Some(Closer));
    states, steps := Extend(cfg, states, steps, ByCloser(LockCloser), s1);
    var s2 := Filled(data).(started := false, closer := Poll);
    states, steps := Extend(cfg, states, steps, ByCloser(AskToStop), s2);
    var s3 := s2.(playerIn := true, lock := Some(Player));
    states, steps := Extend(cfg, states, steps, ByPlayer(LockPlayer), s3);
    var s4 := s2.(player := Receive, prebuffered := true);
    states, steps := Extend(cfg, states, steps, ByPlayer(CheckGate), s4);
    var item := data[..cfg.block];
    var s5 := s4.(player := Copy, item := item, itemSize := cfg.block, ring := data[cfg.block..]);
    states, steps := Extend(cfg, states, steps, ByPlayer(RingReceive(cfg.block)), s5);
    assert [] + item[..|item|] == item && item[|item|..] == [];
    states, steps := Extend(cfg, states, steps, ByPlayer(CopyBytes), AtWrite(cfg, data));
  }

  /** The block has been written and counted. */
  function Counted(cfg: Config, data: seq<Byte>, closer: CloserAt): State
    requires cfg.block <= |data|
  {
    AtWrite(cfg, data).(closer := closer, player := Copy, playing := true, totalOut := cfg.block,
                        codec := data[..cfg.block], scratch := [])
  }

  lemma PlayBlock(cfg: Config, data: seq<Byte>, closer: CloserAt, states: seq<State>, steps: seq<Step>)
    returns (states': seq<State>, steps': seq<Step>)
    requires Execution(cfg, states, steps) && |states| == |steps| + 1 && cfg.block <= |data|
    requires states[|steps|] == AtWrite(cfg, data).(closer := closer)
    ensures Execution(cfg, states', steps') && |states'| == |steps'| + 1
    ensures states'[|steps'|] == Counted(cfg, data, closer)
  {
    hide Execution;
    var s, block := AtWrite(cfg, data).(closer := closer), data[..cfg.block];
    assert [] + block == block;
    var s1 := s.(playerIn := true, lock := Some(Player));
    states', steps' := Extend(cfg, states, steps, ByPlayer(LockPlayer), s1);
    var s2 := s1.(player := Written, codec := block);
    states', steps' := Extend(cfg, states', steps', ByPlayer(CodecWrite(true)), s2);
    var s3 := s2.(playerIn := false, lock := None, player := Count);
    states', steps' := Extend(cfg, states', steps', ByPlayer(DropWrite), s3);
    var s4 := s3.(playerIn := true, lock := Some(Player));
    states', steps' := Extend(cfg, states', steps', ByPlayer(LockPlayer), s4);
    states', steps' := Extend(cfg, states', steps', ByPlayer(AddCounter), Counted(cfg, data, closer));
  }

  // ---------------------------------------------------------------- the runs

  /** The close times out while the player is inside the codec write: the mutex is orphaned. */
  lemma PlayerDeletedInCodecWrite(cfg: Config, data: seq<Byte>) returns (states: seq<State>, steps: seq<Step>)
    requires cfg.Valid() && cfg.block <= |data| <= cfg.capacity
    ensures Execution(cfg, states, steps) && |states| == |steps| + 1
    ensures PlayerOrphan(states[|steps|]) && states[|steps|].player.Written?
  {
    hide Execution;
    states, steps := ReachWrite(cfg, data);
    var s := AtWrite(cfg, data);
    var s1 := s.(closerIn := true, lock := Some(Closer));
    states, steps := Extend(cfg, states, steps, ByCloser(LockCloser), s1);
    var s2 := s.(closer := Decide(false, false));
    states, steps := Extend(cfg, states, steps, ByCloser(ReadPoll), s2);
    var s3 := s.(closer := Kill);
    states, steps := Extend(cfg, states, steps, ByCloser(GiveUp), s3);
    var s4 := s3.(playerIn := true, lock := Some(Player));
    states, steps := Extend(cfg, states, steps, ByPlayer(LockPlayer), s4);
    var s5 := s4.(player := Written, codec := s.codec + s.scratch);
    states, steps := Extend(cfg, states, steps, ByPlayer(CodecWrite(true)), s5);
    var s6 := s5.(closer := Killed, cause := ForcedDelete, playerAlive := false, deletedInside := true);
    states, steps := Extend(cfg, states, steps, ByCloser(DeletePlayer), s6);
  }

  /** The downlink gives up while the producer is inside its first locked section. */
  lemma ProducerDeletedInWrite(cfg: Config, data: seq<Byte>) returns (states: seq<State>, steps: seq<Step>)
    requires cfg.Valid() && data != []
    ensures Execution(cfg, states, steps) && |states| == |steps| + 1 && ProducerOrphan(states[|steps|])
  {
    hide Execution;
    states, steps := Start(cfg);
    states, steps := Extend(cfg, states, steps, ByProducer(EnterWrite(data)), Entered(data));
    states, steps := Extend(cfg, states, steps, ByCloser(DeleteProducer), Entered(data).(producerAlive := false));
  }

  lemma SeeTheTail(cfg: Config, data: seq<Byte>, states: seq<State>, steps: seq<Step>)
    returns (states': seq<State>, steps': seq<Step>)
    requires Execution(cfg, states, steps) && |states| == |steps| + 1 && |data| == cfg.block + cfg.tolerance
    requires states[|steps|] == Counted(cfg, data, Poll)
    ensures Execution(cfg, states', steps') && |states'| == |steps'| + 1
    ensures states'[|steps'|] == Counted(cfg, data, Tail)
  {
    hide Execution;
    var s := Counted(cfg, data, Poll);
    var s1 := s.(closerIn := true, lock := Some(Closer));
    states', steps' := Extend(cfg, states, steps, ByCloser(LockCloser), s1);
    states', steps' := Extend(cfg, states', steps', ByCloser(ReadPoll), Counted(cfg, data, Decide(false, true)));
    states', steps' := Extend(cfg, states', steps', ByCloser(SeeTail), Counted(cfg, data, Tail));
  }

  /** The loss bound is attained: the close returns ESP_OK and exactly the tolerated tail is
      missing. */
  lemma TailIsLost(cfg: Config, data: seq<Byte>) returns (states: seq<State>, steps: seq<Step>)
    requires cfg.Valid() && |data| == cfg.block + cfg.tolerance <= cfg.capacity
    ensures Execution(cfg, states, steps) && |states| == |steps| + 1
    ensures var s := states[|steps|];
            && s.closer == Returned(EspOk) && s.cause == TailAccepted && !s.producerLate && s.enqueued == data
            && |s.enqueued| == |s.codec| + cfg.tolerance
  {
    hide Execution;
    states, steps := ReachWrite(cfg, data);
    states, steps := PlayBlock(cfg, data, Poll, states, steps);
    var s := Counted(cfg, data, Poll);
    states, steps := SeeTheTail(cfg, data, states, steps);
    var s3 := s.(closer := Tail);
    var s4 := s3.(closerIn := true, lock := Some(Closer));
    states, steps := Extend(cfg, states, steps, ByCloser(LockCloser), s4);
    var s5 := s.(closer := Final, cause := TailAccepted, playerAlive := false, hasTask := false, done := true);
    states, steps := Extend(cfg, states, steps, ByCloser(AcceptTail), s5);
    var s6 := s5.(closerIn := true, lock := Some(Closer));
    states, steps := Extend(cfg, states, steps, ByCloser(LockCloser), s6);
    var s7 := s5.(closer := Returned(EspOk), codecOpen := false, lost := Waiting(s6) + s6.item + s6.ring,
                  ringExists := false, ring := [], item := [], scratch := [], totalIn := 0, totalOut := 0,
                  playing := false);
    states, steps := Extend(cfg, states, steps, ByCloser(Cleanup(true)), s7);
  }

  /** The player has played everything and ended; the closer has polled before. */
  function Finished(cfg: Config, data: seq<Byte>, closer: CloserAt): State
    requires cfg.block <= |data|
  {
    Counted(cfg, data, closer).(player := Gone, itemSize := 0, afterLoop := true, done := true)
  }

  lemma ReachGone(cfg: Config, data: seq<Byte>, closer: CloserAt, states: seq<State>, steps: seq<Step>)
    returns (states': seq<State>, steps': seq<Step>)
    requires Execution(cfg, states, steps) && |states| == |steps| + 1 && |data| == cfg.block
    requires states[|steps|] == Counted(cfg, data, closer)
    ensures Execution(cfg, states', steps') && |states'| == |steps'| + 1
    ensures states'[|steps'|] == Finished(cfg, data, closer)
  {
    hide Execution;
    var s := Counted(cfg, data, closer).(itemSize := 0);
    states', steps' := Extend(cfg, states, steps, ByPlayer(ReturnItem), s.(player := Gate));
    states', steps' := Extend(cfg, states', steps', ByPlayer(PassGate), s.(player := Receive));
    states', steps' := Extend(cfg, states', steps', ByPlayer(RingEmpty), s.(player := Starved));
    var s1 := s.(player := Starved, playerIn := true, lock := Some(Player));
    states', steps' := Extend(cfg, states', steps', ByPlayer(LockPlayer), s1);
    states', steps' := Extend(cfg, states', steps', ByPlayer(CheckStarved), s.(player := LoopExit));
    var s2 := s.(player := Finish, afterLoop := true);
    states', steps' := Extend(cfg, states', steps', ByPlayer(LeaveLoop), s2);
    var s3 := s2.(playerIn := true, lock := Some(Player));
    states', steps' := Extend(cfg, states', steps', ByPlayer(LockPlayer), s3);
    states', steps' := Extend(cfg, states', steps', ByPlayer(SetDone), Finished(cfg, data, closer));
  }

  /** The close gives up on a poll that is out of date: it deletes a player that has delivered
      everything and ended. */
  lemma EndedPlayerIsDeleted(cfg: Config, data: seq<Byte>) returns (states: seq<State>, steps: seq<Step>)
    requires cfg.Valid() && |data| == cfg.block
    ensures Execution(cfg, states, steps) && |states| == |steps| + 1 && 0 < |steps|
    ensures steps[|steps| - 1] == ByCloser(DeletePlayer)
    ensures var s := states[|steps| - 1]; s.player.Gone? && s.codec == s.enqueued == data
  {
    hide Execution;
    states, steps := ReachWrite(cfg, data);
    assert data[..cfg.block] == data && data[cfg.block..] == [];
    var s, late := AtWrite(cfg, data), Decide(false, false);
    states, steps := Extend(cfg, states, steps, ByCloser(LockCloser), s.(closerIn := true, lock := Some(Closer)));
    states, steps := Extend(cfg, states, steps, ByCloser(ReadPoll), s.(closer := late));
    states, steps := PlayBlock(cfg, data, late, states, steps);
    states, steps := ReachGone(cfg, data, late, states, steps);
    states, steps := Extend(cfg, states, steps, ByCloser(GiveUp), Finished(cfg, data, Kill));
    var t := Finished(cfg, data, Killed).(cause := ForcedDelete);
    states, steps := Extend(cfg, states, steps, ByCloser(DeletePlayer), t);
  }
}

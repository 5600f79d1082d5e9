/** The update task, the post-reboot confirmation and the validation task as the functions they
    are. Before each of its own actions a task lets the others run, and the power may fail;
    each is shown to be part of a run of the step machine. */
module OtaTasks {
  import opened Bytes
  import opened OtaDevice

  datatype Task = Updater | Confirmer | MainLoop | Validator

  /** Power loss, and every restart, is nobody's action. */
  function Actor(step: Step): Option<Task> {
    match step
    case PowerLoss => None
    case OtaBegin(_) => Some(Updater)
    case OtaWrite(_) => Some(Updater)
    case OtaWriteFails => Some(Updater)
    case OtaEnd => Some(Updater)
    case StorePending(_) => Some(Updater)
    case SetBoot(_) => Some(Updater)
    case ClearAfterFailure(_) => Some(Updater)
    case LoadPending(_) => Some(Confirmer)
    case ReportConfirm(_) => Some(Confirmer)
    case ClearRecovered(_) => Some(Confirmer)
    case BusinessReady(_) => Some(MainLoop)
    case MarkValid(_) => Some(Validator)
    case ReportValidated(_) => Some(Validator)
    case ClearValidated(_) => Some(Validator)
  }

  /** What a task can rely on while others run: either it is where it was, or the device has
      restarted and its part of the state is fresh. */
  ghost predicate Leaves(self: Task, s: State, t: State) {
    match self
    case Updater =>
      t.update.Idle? || (t.update == s.update && t.running == s.running && t.boot == s.boot &&
                         t.slotA.image == s.slotA.image && t.slotB.image == s.slotB.image)
    case Confirmer => t.confirm.NotStarted? || (t.confirm == s.confirm && t.running == s.running)
    case MainLoop => true
    case Validator =>
      t.validate.NotRunning? || t.validate.Started? || (t.validate == s.validate && t.running == s.running)
  }

  /** Without a power loss it is where it was, and a running image does not come on trial. */
  ghost predicate Stays(self: Task, s: State, t: State) {
    && t.running == s.running
    && (At(t, t.running).mark.PendingVerify? ==> At(s, s.running).mark.PendingVerify?)
    && match self
       case Updater => t.update == s.update
       case Confirmer => t.confirm == s.confirm
       case MainLoop => true
       case Validator => s.validate.NotRunning? || t.validate == s.validate
  }

  lemma LeavesItself(self: Task, s: State)
    ensures Leaves(self, s, s) && Stays(self, s, s)
  {
  }

  lemma OthersStay(cfg: Config, self: Task, s: State, u: State, step: Step, t: State)
    requires Stays(self, s, u) && Next(cfg, u, step, t) && Actor(step).Some? && Actor(step) != Some(self)
    requires Bootable(cfg, u)
    ensures Stays(self, s, t)
  {
    hide Matches;
    match step
    case OtaBegin(_) => case OtaWrite(_) => case OtaWriteFails => case OtaEnd =>
    case StorePending(_) => case SetBoot(_) => case ClearAfterFailure(_) => case LoadPending(_) =>
    case ReportConfirm(_) => case ClearRecovered(_) => case BusinessReady(_) => case MarkValid(_) =>
    case ReportValidated(_) => case ClearValidated(_) =>
  }

  lemma OthersLeave(cfg: Config, self: Task, s: State, u: State, step: Step, t: State)
    requires Leaves(self, s, u) && Next(cfg, u, step, t) && Actor(step) != Some(self)
    ensures Leaves(self, s, t)
  {
    hide Matches;
    match step
    case PowerLoss => case OtaBegin(_) => case OtaWrite(_) => case OtaWriteFails => case OtaEnd =>
    case StorePending(_) => case SetBoot(_) => case ClearAfterFailure(_) => case LoadPending(_) =>
    case ReportConfirm(_) => case ClearRecovered(_) => case BusinessReady(_) => case MarkValid(_) =>
    case ReportValidated(_) => case ClearValidated(_) =>
  }

  /** Validation waits for the confirmation, and its task exists only while the flag says so. */
  ghost predicate InOrder(s: State) {
    && (s.validationPending ==> s.confirm.Finished?)
    && (!s.validate.NotRunning? ==> s.businessReady)
  }

  lemma StepInOrder(cfg: Config, s: State, step: Step, t: State)
    requires Bootable(cfg, s) && InOrder(s) && Next(cfg, s, step, t)
    ensures InOrder(t)
  {
    hide Matches;
    match step
    case PowerLoss => case OtaBegin(_) => case OtaWrite(_) => case OtaWriteFails => case OtaEnd =>
    case StorePending(_) => case SetBoot(_) => case ClearAfterFailure(_) => case LoadPending(_) =>
    case ReportConfirm(_) => case ClearRecovered(_) => case BusinessReady(_) => case MarkValid(_) =>
    case ReportValidated(_) => case ClearValidated(_) =>
  }

  class Board {
    const cfg: Config
    var s: State
    ghost var states: seq<State>
    ghost var steps: seq<Step>

    ghost predicate Valid()
      reads this
    {
      |states| == |steps| + 1 && Run(cfg, states, steps) && s == states[|steps|] && Bootable(cfg, s) && InOrder(s)
    }

    constructor (c: Config, start: State)
      requires InService(start)
      ensures Valid() && cfg == c && s == start
    {
      cfg, s, states, steps := c, start, [start], [];
      new;
      ServiceIsBootable(c, start);
    }

    /** Since there were `n` steps, this one was taken. */
    ghost predicate Did(n: nat, step: Step)
      reads this
    {
      exists i :: n <= i < |steps| && steps[i] == step
    }

    method Do(step: Step, t: State)
      requires Valid() && Next(cfg, s, step, t)
      modifies this
      ensures Valid() && s == t && steps == old(steps) + [step] && Did(|old(steps)|, step)
      ensures forall n: nat, x :: old(Did(n, x)) ==> Did(n, x)
    {
      hide Next, Bootable, InOrder;
      StepKeepsBootable(cfg, s, step, t);
      StepInOrder(cfg, s, step, t);
      ghost var longer, more := Extend(cfg, states, steps, step, t);
      assert more[|steps|] == step;
      s, states, steps := t, longer, more;
      assert forall i :: 0 <= i < |old(steps)| ==> steps[i] == old(steps)[i];
    }

    /** Any number of actions of the other tasks, and of power losses. */
    method Yield(self: Task)
      requires Valid()
      modifies this
      ensures Valid() && Leaves(self, old(s), s) && old(steps) <= steps
      ensures Did(|old(steps)|, PowerLoss) || Stays(self, old(s), s)
      ensures forall n: nat, x :: old(Did(n, x)) ==> Did(n, x)
    {
      hide Next, Run, Bootable, InOrder, Leaves, Stays;
      LeavesItself(self, s);
      var others: nat :| others >= 0;
      for i := 0 to others
        invariant Valid() && Leaves(self, old(s), s) && old(steps) <= steps
        invariant Did(|old(steps)|, PowerLoss) || Stays(self, old(s), s)
        invariant forall n: nat, x :: old(Did(n, x)) ==> Did(n, x)
      {
        var step: Step := *;
        var t: State := *;
        if Actor(step) != Some(self) && Next(cfg, s, step, t) {
          OthersLeave(cfg, self, old(s), s, step, t);
          if Stays(self, old(s), s) && step != PowerLoss {
            OthersStay(cfg, self, old(s), s, step, t);
          }
          Do(step, t);
        }
      }
    }
  }

  // ---------------------------------------------------------------- the update task

  /** `app_write_ota_inactive_partition` on the shared state; `flash` says which chunks the flash
      takes. It fails only for one of the five reasons: a power loss, a running image still on
      trial, the wrong length, the wrong digest, or a chunk that the flash refused. */
  method WriteArtifact(b: Board, u: Update, chunks: seq<seq<Byte>>, flash: nat -> bool) returns (ok: bool)
    requires b.Valid() && b.s.update.Idle?
    modifies b
    ensures b.Valid() && b.s.update == (if ok then Written(u) else Idle) && old(b.steps) <= b.steps
    ensures ok ==> At(b.s, Target(b.s)).image == Some(Concat(chunks))
    ensures !ok ==> b.Did(|old(b.steps)|, PowerLoss) || At(old(b.s), old(b.s).running).mark.PendingVerify?
                    || |Concat(chunks)| != u.size || !SameText(b.cfg.digest(Concat(chunks)), u.sha256)
                    || exists i :: 0 <= i < |chunks| && !flash(i)
  {
    hide Run, Matches, SameText, InOrder, Concat;
    ConcatNothing<Byte>();
    b.Yield(Updater);
    if At(b.s, b.s.running).mark.PendingVerify? {
      return false;
    }
    b.Do(OtaBegin(u), Put(b.s, Target(b.s), At(b.s, Target(b.s)).(image := None)).(update := Writing(u, [])));
    for i := 0 to |chunks|
      invariant b.Valid() && b.s.update == Writing(u, Concat(chunks[..i])) && old(b.steps) <= b.steps
    {
      ConcatUpTo(chunks, i);
      PartIsShorter(chunks, i + 1);
      b.Yield(Updater);
      if !b.s.update.Writing? {
        return false;
      }
      var written := b.s.update.written;
      if |written| + |chunks[i]| > u.size || !flash(i) {
        b.Do(OtaWriteFails, b.s.(update := Idle));
        return false;
      }
      b.Do(OtaWrite(chunks[i]), b.s.(update := Writing(u, written + chunks[i])));
    }
    assert chunks[..|chunks|] == chunks;
    ok := FinishArtifact(b, u);
  }

  lemma PartIsShorter(chunks: seq<seq<Byte>>, i: nat)
    requires i <= |chunks|
    ensures |Concat(chunks[..i])| <= |Concat(chunks)|
  {
    hide Concat;
    assert chunks == chunks[..i] + chunks[i..];
    ConcatAppend(chunks[..i], chunks[i..]);
  }

  function AfterOtaEnd(s: State): State
    requires s.update.Writing?
  {
    Put(s, Target(s), At(s, Target(s)).(image := Some(s.update.written))).(update := Written(s.update.u))
  }

  /** Length and digest decide. */
  method FinishArtifact(b: Board, u: Update) returns (ok: bool)
    requires b.Valid() && b.s.update.Writing? && b.s.update.u == u
    modifies b
    ensures b.Valid() && b.s.update == (if ok then Written(u) else Idle) && old(b.steps) <= b.steps
    ensures ok ==> At(b.s, Target(b.s)).image == Some(old(b.s.update.written))
    ensures var written := old(b.s.update.written);
            !ok ==> b.Did(|old(b.steps)|, PowerLoss) || |written| != u.size
                    || !SameText(b.cfg.digest(written), u.sha256)
  {
    hide Run;
    MatchesMeans(b.cfg, u, b.s.update.written);
    b.Yield(Updater);
    if !b.s.update.Writing? {
      return false;
    }
    ok := Matches(b.cfg, u, b.s.update.written);
    if ok {
      b.Do(OtaEnd, AfterOtaEnd(b.s));
    } else {
      b.Do(OtaWriteFails, b.s.(update := Idle));
    }
  }

  function AfterStore(s: State, ok: bool): State
    requires s.update.Written?
  {
    s.(update := if ok then Stored(s.update.u) else Idle,
       nvs := if ok then Some(Pending(s.update.u.release, Target(s))) else s.nvs)
  }

  function AfterSetBoot(s: State, ok: bool): State
    requires s.update.Stored?
  {
    if ok then Put(s, Target(s), At(s, Target(s)).(mark := New)).(boot := Target(s), update := Switched(s.update.u))
    else s.(update := SetFailed)
  }

  /** `app_ota_schedule_boot_switch` up to its restart: when it has switched, the slot the
      device will boot from is not the running one and holds the whole artifact. It does not
      switch only if the record or the boot slot could not be written, or the power failed. */
  method ScheduleBootSwitch(b: Board, u: Update) returns (switched: bool)
    requires b.Valid() && b.s.update == Written(u)
    modifies b
    ensures b.Valid() && b.s.update == (if switched then Switched(u) else Idle) && old(b.steps) <= b.steps
    ensures !switched ==> b.Did(|old(b.steps)|, StorePending(false)) || b.Did(|old(b.steps)|, SetBoot(false))
                          || b.Did(|old(b.steps)|, PowerLoss)
    ensures switched ==> b.Did(|old(b.steps)|, StorePending(true)) && b.Did(|old(b.steps)|, SetBoot(true))
    ensures switched ==> b.s.boot != b.s.running && At(b.s, b.s.boot).image.Some? &&
                         At(b.s, b.s.boot).image == old(At(b.s, Target(b.s)).image) &&
                         Matches(b.cfg, u, At(b.s, b.s.boot).image.value)
  {
    hide Run, Matches;
    var stored: bool := *;
    b.Do(StorePending(stored), AfterStore(b.s, stored));
    if !stored {
      return false;
    }
    b.Yield(Updater);
    if b.s.update.Idle? {
      return false;
    }
    switched := *;
    b.Do(SetBoot(switched), AfterSetBoot(b.s, switched));
    if !switched {
      ForgetPending(b);
    }
  }

  /** The boot slot could not be set: the record is taken back. */
  method ForgetPending(b: Board)
    requires b.Valid() && b.s.update.SetFailed?
    modifies b
    ensures b.Valid() && b.s.update.Idle? && old(b.steps) <= b.steps
    ensures b.Did(|old(b.steps)|, PowerLoss) || b.Did(|old(b.steps)|, ClearAfterFailure(true))
            || b.Did(|old(b.steps)|, ClearAfterFailure(false))
  {
    hide Run, Matches;
    b.Yield(Updater);
    if b.s.update.SetFailed? {
      var cleared: bool := *;
      b.Do(ClearAfterFailure(cleared), b.s.(update := Idle, nvs := Cleared(b.s, cleared)));
    }
  }

  /** The whole update: when it restarts the device into the new slot, the device then runs
      exactly the artifact of the manifest, on trial, with a whole valid image to go back to.
      It ends otherwise only for a named reason. */
  method UpdateDevice(b: Board, u: Update, chunks: seq<seq<Byte>>, flash: nat -> bool) returns (restarted: bool)
    requires b.Valid() && b.s.update.Idle?
    modifies b
    ensures b.Valid() && old(b.steps) <= b.steps
    ensures !restarted ==>
              var n := |old(b.steps)|;
              || b.Did(n, PowerLoss) || b.Did(n, StorePending(false)) || b.Did(n, SetBoot(false))
              || At(old(b.s), old(b.s).running).mark.PendingVerify?
              || |Concat(chunks)| != u.size || !SameText(b.cfg.digest(Concat(chunks)), u.sha256)
              || exists i :: 0 <= i < |chunks| && !flash(i)
    ensures restarted ==>
              var here, there := At(b.s, b.s.running), At(b.s, Other(b.s.running));
              && here.image == Some(Concat(chunks)) && Matches(b.cfg, u, Concat(chunks)) && here.mark.PendingVerify?
              && |Concat(chunks)| == u.size && SameText(b.cfg.digest(Concat(chunks)), u.sha256)
              && there.image.Some? && there.mark.Valid?
  {
    hide Run, Matches, Concat;
    restarted := WriteArtifact(b, u, chunks, flash);
    if restarted {
      restarted := ScheduleBootSwitch(b, u);
    }
    if restarted {
      // The report of the switch takes its time.
      b.Yield(Updater);
      restarted := b.s.update == Switched(u);
    }
    if restarted {
      b.Do(PowerLoss, Reboot(b.s));
      MatchesMeans(b.cfg, u, Concat(chunks));
    }
  }

  // ---------------------------------------------------------------- confirmation and validation

  datatype Confirmation = NoRecord | NotAccepted | Confirmed | Recovered | Restarted

  function AfterLoad(s: State, ok: bool): State {
    s.(confirm := if ok && s.nvs.Some? then Loaded(s.nvs.value) else Finished)
  }

  function AfterReport(s: State, accepted: bool): State
    requires s.confirm.Loaded?
  {
    var here := s.running == s.confirm.p.slot;
    s.(confirm := if accepted && !here then Recovering else Finished,
       validationPending := s.validationPending || (accepted && here),
       businessReady := s.businessReady && !(accepted && here))
  }

  /** `app_ota_post_reboot_confirm_if_pending`: validation is asked for exactly when the server
      accepted the confirmation of the slot the record names. */
  method ConfirmAfterReboot(b: Board) returns (r: Confirmation)
    requires b.Valid() && b.s.confirm.NotStarted?
    modifies b
    ensures b.Valid()
    ensures b.s.validationPending <==> r.Confirmed?
    ensures r.Confirmed? ==> exists k :: ConfirmedAt(b.states, b.steps, k, |b.steps|)
    ensures r.NoRecord? || r.NotAccepted? || r.Confirmed? ==> b.s.confirm.Finished?
    ensures r.Recovered? ==> b.s.confirm.Finished? || b.s.confirm.NotStarted?
    ensures r.Restarted? ==> b.s.confirm.NotStarted?
    ensures old(b.steps) <= b.steps && (r.Restarted? ==> b.Did(|old(b.steps)|, PowerLoss))
    ensures r.NoRecord? ==> b.s.nvs.None? || b.Did(|old(b.steps)|, LoadPending(false))
    ensures r.NotAccepted? ==> b.Did(|old(b.steps)|, ReportConfirm(false))
    ensures r.Confirmed? || r.Recovered? ==> b.Did(|old(b.steps)|, ReportConfirm(true))
  {
    hide Run, Matches;
    b.Yield(Confirmer);
    var ok: bool := *;
    b.Do(LoadPending(ok), AfterLoad(b.s, ok));
    if !b.s.confirm.Loaded? {
      return NoRecord;
    }
    r := ConfirmLoaded(b);
  }

  /** The record is asked about: the server's answer and the slot decide. */
  method ConfirmLoaded(b: Board) returns (r: Confirmation)
    requires b.Valid() && b.s.confirm.Loaded?
    modifies b
    ensures b.Valid() && !r.NoRecord?
    ensures b.s.validationPending <==> r.Confirmed?
    ensures r.Confirmed? ==> exists k :: ConfirmedAt(b.states, b.steps, k, |b.steps|)
    ensures r.NotAccepted? || r.Confirmed? ==> b.s.confirm.Finished?
    ensures r.Recovered? ==> b.s.confirm.Finished? || b.s.confirm.NotStarted?
    ensures r.Restarted? ==> b.s.confirm.NotStarted?
    ensures old(b.steps) <= b.steps && (r.Restarted? ==> b.Did(|old(b.steps)|, PowerLoss))
    ensures r.NotAccepted? ==> b.Did(|old(b.steps)|, ReportConfirm(false))
    ensures r.Confirmed? || r.Recovered? ==> b.Did(|old(b.steps)|, ReportConfirm(true))
    ensures r.Confirmed? ==> old(b.s.running) == old(b.s.confirm.p.slot)
    ensures r.Recovered? ==> old(b.s.running) != old(b.s.confirm.p.slot)
  {
    hide Run, Matches;
    b.Yield(Confirmer);
    if !b.s.confirm.Loaded? {
      return Restarted;
    }
    var accepted, here: bool := *, b.s.running == b.s.confirm.p.slot;
    b.Do(ReportConfirm(accepted), AfterReport(b.s, accepted));
    if !accepted {
      return NotAccepted;
    }
    if here {
      var k := PendingMeansConfirmed(b.cfg, b.states, b.steps, |b.steps|);
      return Confirmed;
    }
    Recover(b);
    return Recovered;
  }

  /** The record named the other slot: the device has fallen back, and the record goes. */
  method Recover(b: Board)
    requires b.Valid() && b.s.confirm.Recovering?
    modifies b
    ensures b.Valid() && (b.s.confirm.Finished? || b.s.confirm.NotStarted?) && !b.s.validationPending
    ensures old(b.steps) <= b.steps && forall n: nat, x :: old(b.Did(n, x)) ==> b.Did(n, x)
    ensures var n := |old(b.steps)|;
            b.Did(n, PowerLoss) || b.Did(n, ClearRecovered(true)) || b.Did(n, ClearRecovered(false))
  {
    hide Run, Matches;
    b.Yield(Confirmer);
    if b.s.confirm.Recovering? {
      var cleared: bool := *;
      b.Do(ClearRecovered(cleared), b.s.(confirm := Finished, nvs := Cleared(b.s, cleared)));
    }
  }

  /** `app_ota_rollback_note_business_ready`. */
  method NoteBusinessReady(b: Board)
    requires b.Valid()
    modifies b
    ensures b.Valid()
    ensures b.s != old(b.s) ==> old(b.s.validationPending) && !old(b.s.businessReady) &&
                                b.s == old(b.s).(businessReady := true, validate := Started)
    ensures old(b.s.validationPending) && !old(b.s.businessReady) ==>
              b.steps == old(b.steps) + [BusinessReady(b.s.businessReady)]
  {
    hide Run, Matches;
    if !b.s.validationPending || b.s.businessReady {
      return;
    }
    var created: bool := *;
    b.Do(BusinessReady(created),
         b.s.(businessReady := created, validate := if created then Started else NotRunning));
  }

  function AfterMark(s: State, ok: bool): State {
    (if ok then Put(s, s.running, At(s, s.running).(mark := Valid)) else s).(validate := Marked(ok))
  }

  function AfterValidatedReport(s: State, both: bool): State {
    s.(validate := if both then Clearing else NotRunning, businessReady := s.businessReady && both)
  }

  datatype Validation = Validated | Refused | Gone

  /** `app_ota_rollback_validation_task`: it marks the running image, which the server has
      confirmed in this boot, and drops flag and record only when that worked and was reported.
      Otherwise the flag stays and the task can be started again, unless the device restarts. */
  method ValidateApp(b: Board) returns (r: Validation)
    requires b.Valid() && b.s.validate.Started?
    modifies b
    ensures b.Valid()
    ensures r.Validated? ==> At(b.s, b.s.running).mark.Valid? && !b.s.validationPending && b.s.validate.NotRunning?
    ensures r.Refused? ==> b.s.validationPending && !b.s.businessReady && b.s.validate.NotRunning?
    ensures r.Gone? ==> b.s.validate.NotRunning? || b.s.validate.Started?
    ensures old(b.steps) <= b.steps && (r.Gone? ==> b.Did(|old(b.steps)|, PowerLoss))
    ensures r.Validated? ==> b.Did(|old(b.steps)|, MarkValid(true)) && b.Did(|old(b.steps)|, ReportValidated(true))
    ensures r.Refused? ==> b.Did(|old(b.steps)|, MarkValid(false)) || b.Did(|old(b.steps)|, ReportValidated(false))
  {
    hide Run, Matches;
    b.Yield(Validator);
    if !b.s.validate.Started? {
      return Gone;
    }
    var ok: bool := *;
    Mark(b, ok);
    r := ReportMarked(b, ok);
  }

  /** What follows the marking: the report, and with it the end of the record. */
  method ReportMarked(b: Board, ok: bool) returns (r: Validation)
    requires b.Valid() && b.s.validate == Marked(ok)
    modifies b
    ensures b.Valid()
    ensures r.Validated? ==> At(b.s, b.s.running).mark.Valid? && !b.s.validationPending && b.s.validate.NotRunning?
    ensures r.Refused? ==> b.s.validationPending && !b.s.businessReady && b.s.validate.NotRunning?
    ensures r.Gone? ==> b.s.validate.NotRunning? || b.s.validate.Started?
    ensures old(b.steps) <= b.steps && forall n: nat, x :: old(b.Did(n, x)) ==> b.Did(n, x)
    ensures r.Gone? ==> b.Did(|old(b.steps)|, PowerLoss)
    ensures r.Validated? ==> ok && b.Did(|old(b.steps)|, ReportValidated(true))
    ensures r.Refused? ==> !ok || b.Did(|old(b.steps)|, ReportValidated(false))
  {
    hide Run, Matches;
    b.Yield(Validator);
    if b.s.validate != Marked(ok) {
      return Gone;
    }
    var accepted: bool := *;
    b.Do(ReportValidated(accepted), AfterValidatedReport(b.s, ok && accepted));
    if !(ok && accepted) {
      return Refused;
    }
    b.Yield(Validator);
    if !b.s.validate.Clearing? {
      return Gone;
    }
    DropRecord(b);
    return Validated;
  }

  function AfterDrop(s: State, cleared: bool): State {
    s.(validate := NotRunning, validationPending := false, nvs := Cleared(s, cleared))
  }

  /** The end of the validation, which only comes after the server accepted the report that the
      image was marked valid. */
  method DropRecord(b: Board)
    requires b.Valid() && b.s.validate.Clearing?
    modifies b
    ensures b.Valid() && (b.s == AfterDrop(old(b.s), true) || b.s == AfterDrop(old(b.s), false))
    ensures old(b.steps) <= b.steps && forall n: nat, x :: old(b.Did(n, x)) ==> b.Did(n, x)
    ensures At(b.s, b.s.running).mark.Valid?
    ensures exists k :: ReportedAt(old(b.states), old(b.steps), k, |old(b.steps)|)
  {
    hide Run, Matches;
    var k := ClearingMeansReported(b.cfg, b.states, b.steps, |b.steps|);
    var cleared: bool := *;
    b.Do(ClearValidated(cleared), AfterDrop(b.s, cleared));
  }

  /** `esp_ota_mark_app_valid_cancel_rollback`, which only happens after a confirmation that
      the server accepted since the last restart. */
  method Mark(b: Board, ok: bool)
    requires b.Valid() && b.s.validate.Started?
    modifies b
    ensures b.Valid() && b.s == AfterMark(old(b.s), ok) && b.steps == old(b.steps) + [MarkValid(ok)]
    ensures b.Did(|old(b.steps)|, MarkValid(ok)) && forall n: nat, x :: old(b.Did(n, x)) ==> b.Did(n, x)
    ensures exists k :: ConfirmedAt(old(b.states), old(b.steps), k, |old(b.steps)|)
  {
    hide Run, Matches;
    var k := PendingMeansConfirmed(b.cfg, b.states, b.steps, |b.steps|);
    b.Do(MarkValid(ok), AfterMark(b.s, ok));
  }
}

/** Device side of the over-the-air update, built with partition write, boot switch and
    rollback validation: the update task, the post-reboot confirmation, the validation of
    the new image and its timeout, with power loss possible between any two steps. */
module OtaDevice {
  import opened Bytes
  import opened Http

  datatype Slot = SlotA | SlotB

  function Other(slot: Slot): Slot {
    if slot.SlotA? then SlotB else SlotA
  }

  /** What the boot loader's data says about the image in a slot. */
  datatype Mark = Valid | New | PendingVerify | Aborted

  /** `image` is the complete image in the slot, or nothing while it is being written. */
  datatype SlotInfo = SlotInfo(mark: Mark, image: Option<seq<Byte>>)

  datatype Update = Update(release: string, size: nat, sha256: string)

  /** The record in NVS: which slot the device expects to boot from. */
  datatype Pending = Pending(release: string, slot: Slot)

  datatype UpdateAt =
    | Idle
    | Writing(u: Update, written: seq<Byte>)
    | Written(u: Update)
    | Stored(u: Update)
    | SetFailed
    | Switched(u: Update)

  datatype ConfirmAt = NotStarted | Loaded(p: Pending) | Recovering | Finished

  datatype ValidateAt = NotRunning | Started | Marked(ok: bool) | Clearing

  datatype State = State(
    // survives power loss
    slotA: SlotInfo, slotB: SlotInfo, boot: Slot, nvs: Option<Pending>,
    // does not
    running: Slot, update: UpdateAt, confirm: ConfirmAt,
    validationPending: bool, businessReady: bool, validate: ValidateAt)

  /** The digest function; the manifest's spelling of a digest may differ in letter case. */
  datatype Config = Config(digest: seq<Byte> -> string)

  function At(s: State, slot: Slot): SlotInfo {
    if slot.SlotA? then s.slotA else s.slotB
  }

  function Put(s: State, slot: Slot, info: SlotInfo): State {
    if slot.SlotA? then s.(slotA := info) else s.(slotB := info)
  }

  function LowerChar(c: char): char {
    if 'A' <= c <= 'Z' then ((c as int) + 32) as char else c
  }

  function Lower(text: string): string {
    seq(|text|, i requires 0 <= i < |text| => LowerChar(text[i]))
  }

  /** Two spellings of one digest: the same characters up to the case of ASCII letters. */
  predicate SameText(a: string, b: string) {
    |a| == |b| && forall i :: 0 <= i < |a| ==> SameLetter(a[i], b[i])
  }

  predicate SameLetter(a: char, b: char) {
    || a == b
    || ('A' <= a <= 'Z' && (b as int) == (a as int) + 32)
    || ('A' <= b <= 'Z' && (a as int) == (b as int) + 32)
  }

  lemma LowerKeepsApart(a: char, b: char)
    ensures LowerChar(a) == LowerChar(b) <==>
            || a == b
            || ('A' <= a <= 'Z' && (b as int) == (a as int) + 32)
            || ('A' <= b <= 'Z' && (a as int) == (b as int) + 32)
  {
  }

  lemma LowerMeansSameText(a: string, b: string)
    ensures Lower(a) == Lower(b) <==> SameText(a, b)
  {
    if |a| == |b| {
      forall i | 0 <= i < |a| ensures Lower(a)[i] == Lower(b)[i] <==> SameLetter(a[i], b[i]) {
        LowerKeepsApart(a[i], b[i]);
      }
    } else {
      assert |Lower(a)| != |Lower(b)|;
    }
  }

  /** The whole artifact: its length and its digest are those of the manifest. */
  predicate Matches(cfg: Config, u: Update, image: seq<Byte>) {
    |image| == u.size && Lower(cfg.digest(image)) == Lower(u.sha256)
  }

  lemma MatchesMeans(cfg: Config, u: Update, image: seq<Byte>)
    ensures Matches(cfg, u, image) <==> |image| == u.size && SameText(cfg.digest(image), u.sha256)
  {
    LowerMeansSameText(cfg.digest(image), u.sha256);
  }

  // ---------------------------------------------------------------- steps

  datatype Step =
    | PowerLoss
    | OtaBegin(u: Update)
    | OtaWrite(chunk: seq<Byte>)
    | OtaWriteFails
    | OtaEnd
    | StorePending(ok: bool)
    | SetBoot(ok: bool)
    | ClearAfterFailure(ok: bool)
    | LoadPending(ok: bool)
    | ReportConfirm(accepted: bool)
    | ClearRecovered(ok: bool)
    | BusinessReady(taskCreated: bool)
    | MarkValid(ok: bool)
    | ReportValidated(accepted: bool)
    | ClearValidated(ok: bool)

  /** Everything volatile is lost; the boot loader picks the slot. An image that was booted
      once and never validated is given up for the other one. */
  function Reboot(s: State): State {
    var mark := At(s, s.boot).mark;
    var slot := if mark.PendingVerify? then Other(s.boot) else s.boot;
    var t := if mark.New? then Put(s, s.boot, At(s, s.boot).(mark := PendingVerify))
             else if mark.PendingVerify? then Put(s, s.boot, At(s, s.boot).(mark := Aborted))
             else s;
    t.(boot := slot, running := slot, update := Idle, confirm := NotStarted,
       validationPending := false, businessReady := false, validate := NotRunning)
  }

  function Target(s: State): Slot {
    Other(s.running)
  }

  function Cleared(s: State, ok: bool): Option<Pending> {
    if ok then None else s.nvs
  }

  predicate Next(cfg: Config, s: State, step: Step, t: State) {
    match step
    case PowerLoss => t == Reboot(s)
    // app_write_ota_inactive_partition
    case OtaBegin(u) =>
      && s.update.Idle? && !At(s, s.running).mark.PendingVerify?
      && t == Put(s, Target(s), At(s, Target(s)).(image := None)).(update := Writing(u, []))
    case OtaWrite(chunk) =>
      && s.update.Writing? && |s.update.written| + |chunk| <= s.update.u.size
      && t == s.(update := Writing(s.update.u, s.update.written + chunk))
    case OtaWriteFails =>
      s.update.Writing? && t == s.(update := Idle)
    case OtaEnd =>
      && s.update.Writing? && Matches(cfg, s.update.u, s.update.written)
      && t == Put(s, Target(s), At(s, Target(s)).(image := Some(s.update.written))).(update := Written(s.update.u))
    // app_ota_schedule_boot_switch
    case StorePending(ok) =>
      && s.update.Written?
      && t == s.(update := if ok then Stored(s.update.u) else Idle,
                 nvs := if ok then Some(Pending(s.update.u.release, Target(s))) else s.nvs)
    case SetBoot(ok) =>
      && s.update.Stored?
      && t == if ok then
                Put(s, Target(s), At(s, Target(s)).(mark := New)).(boot := Target(s), update := Switched(s.update.u))
              else s.(update := SetFailed)
    case ClearAfterFailure(ok) =>
      s.update.SetFailed? && t == s.(update := Idle, nvs := Cleared(s, ok))
    // app_ota_post_reboot_confirm_if_pending
    case LoadPending(ok) =>
      && s.confirm.NotStarted?
      && t == s.(confirm := if ok && s.nvs.Some? then Loaded(s.nvs.value) else Finished)
    case ReportConfirm(accepted) =>
      && s.confirm.Loaded?
      && (var here := s.running == s.confirm.p.slot;
          t == s.(confirm := if accepted && !here then Recovering else Finished,
                  validationPending := s.validationPending || (accepted && here),
                  businessReady := s.businessReady && !(accepted && here)))
    case ClearRecovered(ok) =>
      s.confirm.Recovering? && t == s.(confirm := Finished, nvs := Cleared(s, ok))
    // app_ota_rollback_note_business_ready, app_ota_rollback_validation_task
    case BusinessReady(taskCreated) =>
      && s.validationPending && !s.businessReady && s.validate.NotRunning?
      && t == s.(businessReady := taskCreated, validate := if taskCreated then Started else NotRunning)
    case MarkValid(ok) =>
      && s.validate.Started?
      && t == (if ok then Put(s, s.running, At(s, s.running).(mark := Valid)) else s).(validate := Marked(ok))
    case ReportValidated(accepted) =>
      && s.validate.Marked?
      && (var both := s.validate.ok && accepted;
          t == s.(validate := if both then Clearing else NotRunning, businessReady := s.businessReady && both))
    case ClearValidated(ok) =>
      s.validate.Clearing? && t == s.(validate := NotRunning, validationPending := false, nvs := Cleared(s, ok))
  }

  /** A device in service: it runs a valid image and no update is on its way. */
  ghost predicate InService(s: State) {
    && s.boot == s.running && At(s, s.boot).mark.Valid? && At(s, s.boot).image.Some?
    && s.nvs == None && s.update.Idle? && s.confirm.NotStarted?
    && !s.validationPending && !s.businessReady && s.validate.NotRunning?
  }

  ghost predicate Run(cfg: Config, states: seq<State>, steps: seq<Step>) {
    && |states| == |steps| + 1 && InService(states[0])
    && forall i :: 0 <= i < |steps| ==> Next(cfg, states[i], steps[i], states[i + 1])
  }

  // ---------------------------------------------------------------- what always holds

  /** The image the boot loader would start is whole; one that is not yet valid has a whole
      valid image to fall back to; the update never touches the slot it runs from. */
  ghost predicate Bootable(cfg: Config, s: State) {
    && At(s, s.boot).image.Some? && At(s, s.running).image.Some?
    && (s.boot == s.running || s.update.Switched?)
    && (s.update.Switched? ==> s.boot == Target(s) && At(s, s.boot).mark.New?)
    && (!s.update.Switched? ==> At(s, s.boot).mark.Valid? || At(s, s.boot).mark.PendingVerify?)
    && (!s.update.Idle? ==> At(s, s.running).mark.Valid?)
    && (!At(s, s.boot).mark.Valid? ==> At(s, Other(s.boot)).mark.Valid? && At(s, Other(s.boot)).image.Some?)
    && (s.update.Written? || s.update.Stored? || s.update.Switched? ==>
          At(s, Target(s)).image.Some? && Matches(cfg, s.update.u, At(s, Target(s)).image.value))
    && ((s.validate.Marked? && s.validate.ok) || s.validate.Clearing? ==> At(s, s.running).mark.Valid?)
    && (!s.validate.NotRunning? ==> s.validationPending)
  }

  lemma StepKeepsBootable(cfg: Config, s: State, step: Step, t: State)
    requires Bootable(cfg, s) && Next(cfg, s, step, t)
    ensures Bootable(cfg, t)
  {
    hide Matches;
    match step
    case PowerLoss => case OtaBegin(_) => case OtaWrite(_) => case OtaWriteFails => case OtaEnd =>
    case StorePending(_) => case SetBoot(_) => case ClearAfterFailure(_) => case LoadPending(_) =>
    case ReportConfirm(_) => case ClearRecovered(_) => case BusinessReady(_) => case MarkValid(_) =>
    case ReportValidated(_) => case ClearValidated(_) =>
  }

  lemma {:induction false} RunIsBootable(cfg: Config, states: seq<State>, steps: seq<Step>, i: nat)
    requires Run(cfg, states, steps) && i <= |steps|
    ensures Bootable(cfg, states[i])
    decreases i
  {
    hide Next, Bootable;
    if i == 0 {
      ServiceIsBootable(cfg, states[0]);
    } else {
      RunIsBootable(cfg, states, steps, i - 1);
      StepKeepsBootable(cfg, states[i - 1], steps[i - 1], states[i]);
    }
  }

  lemma ServiceIsBootable(cfg: Config, s: State)
    requires InService(s)
    ensures Bootable(cfg, s)
  {
  }

  /** After any power loss the device starts a whole image, and unless that image is valid
      the other slot holds a whole valid one. */
  lemma PowerLossIsSurvivable(cfg: Config, states: seq<State>, steps: seq<Step>, i: nat)
    requires Run(cfg, states, steps) && i < |steps| && steps[i].PowerLoss?
    ensures var t := states[i + 1];
            && t.running == t.boot && At(t, t.boot).image.Some?
            && (At(t, t.boot).mark.Valid? || At(t, t.boot).mark.PendingVerify?)
            && (!At(t, t.boot).mark.Valid? ==> At(t, Other(t.boot)).mark.Valid? && At(t, Other(t.boot)).image.Some?)
  {
    hide Matches;
    RunIsBootable(cfg, states, steps, i + 1);
    assert Next(cfg, states[i], steps[i], states[i + 1]);
  }

  /** On trial, the running image stays so until it is marked valid; a valid one stays valid. */
  lemma TrialStays(cfg: Config, s: State, step: Step, t: State)
    requires Bootable(cfg, s) && s.boot == s.running && Next(cfg, s, step, t) && !step.PowerLoss?
    requires step != SetBoot(true)
    ensures t.running == s.running && t.boot == s.boot
    ensures step != MarkValid(true) ==> At(t, t.running).mark == At(s, s.running).mark
    ensures step == MarkValid(true) ==> At(t, t.running).mark.Valid?
  {
    hide Matches;
    match step
    case OtaBegin(_) => case OtaWrite(_) => case OtaWriteFails => case OtaEnd =>
    case StorePending(_) => case SetBoot(_) => case ClearAfterFailure(_) => case LoadPending(_) =>
    case ReportConfirm(_) => case ClearRecovered(_) => case BusinessReady(_) => case MarkValid(_) =>
    case ReportValidated(_) => case ClearValidated(_) =>
  }

  /** An image on trial cannot be followed by another update before it is valid. */
  lemma NoSwitchOnTrial(cfg: Config, s: State, t: State)
    requires Bootable(cfg, s) && Next(cfg, s, SetBoot(true), t)
    ensures At(s, s.running).mark.Valid?
  {
  }

  lemma RunsWhatItBoots(cfg: Config, s: State, t: State)
    requires Next(cfg, s, PowerLoss, t)
    ensures t.running == t.boot
  {
  }

  lemma {:induction false} TrialUpTo(cfg: Config, states: seq<State>, steps: seq<Step>, i: nat, j: nat)
    requires Run(cfg, states, steps) && i < j <= |steps| && steps[i].PowerLoss?
    requires forall k :: i < k < j ==> !steps[k].PowerLoss? && steps[k] != SetBoot(true)
    ensures var s, t := states[i + 1], states[j];
            && t.running == t.boot == s.running
            && (At(t, t.running).mark.Valid? <==>
                At(s, s.running).mark.Valid? || exists k :: i < k < j && steps[k] == MarkValid(true))
            && (!At(t, t.running).mark.Valid? ==> At(t, t.running).mark == At(s, s.running).mark)
    decreases j
  {
    hide Next, Bootable;
    if j == i + 1 {
      RunsWhatItBoots(cfg, states[i], states[i + 1]);
    } else {
      TrialUpTo(cfg, states, steps, i, j - 1);
      RunIsBootable(cfg, states, steps, j - 1);
      TrialStays(cfg, states[j - 1], steps[j - 1], states[j]);
    }
  }

  lemma {:induction false} NoUpdateOnTrial(cfg: Config, states: seq<State>, steps: seq<Step>, i: nat, j: nat)
    requires Run(cfg, states, steps) && i < j <= |steps| && steps[i].PowerLoss?
    requires At(states[i + 1], states[i + 1].running).mark.PendingVerify?
    requires forall k :: i < k < j ==> !steps[k].PowerLoss? && steps[k] != MarkValid(true)
    ensures forall k :: i < k < j ==> steps[k] != SetBoot(true)
    decreases j
  {
    hide Next, Bootable;
    if j > i + 1 {
      NoUpdateOnTrial(cfg, states, steps, i, j - 1);
      TrialUpTo(cfg, states, steps, i, j - 1);
      RunIsBootable(cfg, states, steps, j - 1);
      if steps[j - 1] == SetBoot(true) { NoSwitchOnTrial(cfg, states[j - 1], states[j]); }
    }
  }

  /** A new image gets one boot: if it has been marked valid by the next restart, the device goes on
      running it, unless a further update switches the slot; if not, the device goes back to the
      other slot, which holds a whole valid image. */
  lemma OneBootOnTrial(cfg: Config, states: seq<State>, steps: seq<Step>, i: nat, j: nat)
    requires Run(cfg, states, steps) && i < j < |steps| && steps[i].PowerLoss? && steps[j].PowerLoss?
    requires At(states[i + 1], states[i + 1].running).mark.PendingVerify?
    requires forall k :: i < k < j ==> !steps[k].PowerLoss?
    ensures var here, after := states[i + 1].running, states[j + 1];
            var validated := exists k :: i < k < j && steps[k] == MarkValid(true);
            var switched := exists k :: i < k < j && steps[k] == SetBoot(true);
            && (!validated ==> after.running == Other(here) && At(after, here).mark.Aborted?)
            && (validated && !switched ==> after.running == here)
            && (!switched ==> At(after, after.running).mark.Valid? && At(after, after.running).image.Some?)
            && (switched ==> validated)
  {
    hide Matches;
    if forall k :: i < k < j ==> steps[k] != MarkValid(true) {
      NoUpdateOnTrial(cfg, states, steps, i, j);
    }
    if forall k :: i < k < j ==> steps[k] != SetBoot(true) {
      TrialUpTo(cfg, states, steps, i, j);
      RunIsBootable(cfg, states, steps, j);
      assert Next(cfg, states[j], steps[j], states[j + 1]);
    }
  }

  /** The boot slot is switched only to the slot the device does not run from, and only when
      the whole artifact is in it. */
  lemma SwitchOnlyToWholeArtifact(cfg: Config, states: seq<State>, steps: seq<Step>, i: nat)
    requires Run(cfg, states, steps) && i < |steps| && states[i].boot != states[i + 1].boot
    ensures !steps[i].PowerLoss? ==>
              var s, slot := states[i], states[i + 1].boot;
              && steps[i] == SetBoot(true) && s.update.Stored? && slot != s.running
              && At(s, slot).image.Some? && Matches(cfg, s.update.u, At(s, slot).image.value)
              && |At(s, slot).image.value| == s.update.u.size
              && SameText(cfg.digest(At(s, slot).image.value), s.update.u.sha256)
    ensures steps[i].PowerLoss? ==> At(states[i], states[i].boot).mark.PendingVerify?
  {
    hide Matches;
    RunIsBootable(cfg, states, steps, i);
    assert Next(cfg, states[i], steps[i], states[i + 1]);
    BootOnlyMoves(cfg, states[i], steps[i], states[i + 1]);
    if !steps[i].PowerLoss? {
      MatchesMeans(cfg, states[i].update.u, At(states[i], states[i + 1].boot).image.value);
    }
  }

  lemma BootOnlyMoves(cfg: Config, s: State, step: Step, t: State)
    requires Next(cfg, s, step, t) && s.boot != t.boot
    ensures step.PowerLoss? || step == SetBoot(true)
  {
    hide Matches;
    match step
    case PowerLoss => case OtaBegin(_) => case OtaWrite(_) => case OtaWriteFails => case OtaEnd =>
    case StorePending(_) => case SetBoot(_) => case ClearAfterFailure(_) => case LoadPending(_) =>
    case ReportConfirm(_) => case ClearRecovered(_) => case BusinessReady(_) => case MarkValid(_) =>
    case ReportValidated(_) => case ClearValidated(_) =>
  }

  // ---------------------------------------------------------------- validation

  /** Step `k` of the run: the server accepted the confirmation that the device runs from
      the slot the pending record names, and the device has not restarted since. */
  ghost predicate ConfirmedAt(states: seq<State>, steps: seq<Step>, k: nat, i: nat)
    requires |states| == |steps| + 1
  {
    && k < i <= |steps|
    && steps[k] == ReportConfirm(true) && states[k].confirm.Loaded?
    && states[k].confirm.p.slot == states[k].running == states[i].running
    && forall j :: k <= j < i ==> !steps[j].PowerLoss?
  }

  lemma FlagStep(cfg: Config, s: State, step: Step, t: State)
    requires Next(cfg, s, step, t)
    ensures step.PowerLoss? ==> !t.validationPending
    ensures !step.PowerLoss? ==> t.running == s.running
    ensures t.validationPending && !s.validationPending ==>
              step == ReportConfirm(true) && s.confirm.Loaded? && s.confirm.p.slot == s.running
  {
    hide Matches;
    match step
    case PowerLoss => case OtaBegin(_) => case OtaWrite(_) => case OtaWriteFails => case OtaEnd =>
    case StorePending(_) => case SetBoot(_) => case ClearAfterFailure(_) => case LoadPending(_) =>
    case ReportConfirm(_) => case ClearRecovered(_) => case BusinessReady(_) => case MarkValid(_) =>
    case ReportValidated(_) => case ClearValidated(_) =>
  }

  lemma {:induction false} PendingMeansConfirmed(cfg: Config, states: seq<State>, steps: seq<Step>, i: nat)
    returns (k: nat)
    requires Run(cfg, states, steps) && i <= |steps| && states[i].validationPending
    ensures ConfirmedAt(states, steps, k, i)
    decreases i
  {
    hide Next;
    FlagStep(cfg, states[i - 1], steps[i - 1], states[i]);
    if states[i - 1].validationPending {
      k := PendingMeansConfirmed(cfg, states, steps, i - 1);
    } else {
      k := i - 1;
    }
  }

  /** The app is marked valid only after an accepted confirmation in the same boot. */
  lemma MarkedOnlyAfterConfirmation(cfg: Config, states: seq<State>, steps: seq<Step>, i: nat)
    requires Run(cfg, states, steps) && i < |steps| && steps[i] == MarkValid(true)
    ensures exists k :: ConfirmedAt(states, steps, k, i)
  {
    RunIsBootable(cfg, states, steps, i);
    assert Next(cfg, states[i], steps[i], states[i + 1]);
    var k := PendingMeansConfirmed(cfg, states, steps, i);
  }

  /** Step `k`: the server accepted the report that the mark succeeded, and the device has not
      restarted since. */
  ghost predicate ReportedAt(states: seq<State>, steps: seq<Step>, k: nat, i: nat)
    requires |states| == |steps| + 1
  {
    && k < i <= |steps|
    && steps[k] == ReportValidated(true) && states[k].validate == Marked(true)
    && At(states[k], states[k].running).mark.Valid? && states[k].running == states[i].running
    && forall j :: k <= j < i ==> !steps[j].PowerLoss?
  }

  lemma ClearingStep(cfg: Config, s: State, step: Step, t: State)
    requires Bootable(cfg, s) && Next(cfg, s, step, t) && t.validate.Clearing?
    ensures !step.PowerLoss? && t.running == s.running
    ensures !s.validate.Clearing? ==>
              step == ReportValidated(true) && s.validate == Marked(true) && At(s, s.running).mark.Valid?
  {
    hide Matches;
    match step
    case PowerLoss => case OtaBegin(_) => case OtaWrite(_) => case OtaWriteFails => case OtaEnd =>
    case StorePending(_) => case SetBoot(_) => case ClearAfterFailure(_) => case LoadPending(_) =>
    case ReportConfirm(_) => case ClearRecovered(_) => case BusinessReady(_) => case MarkValid(_) =>
    case ReportValidated(_) => case ClearValidated(_) =>
  }

  /** The validation task drops the record and the flag only after the image was marked valid
      and the server accepted that report, in the same boot. */
  lemma {:induction false} ClearingMeansReported(cfg: Config, states: seq<State>, steps: seq<Step>, i: nat)
    returns (k: nat)
    requires Run(cfg, states, steps) && i <= |steps| && states[i].validate.Clearing?
    ensures ReportedAt(states, steps, k, i)
    decreases i
  {
    hide Next, Bootable;
    RunIsBootable(cfg, states, steps, i - 1);
    ClearingStep(cfg, states[i - 1], steps[i - 1], states[i]);
    if states[i - 1].validate.Clearing? {
      k := ClearingMeansReported(cfg, states, steps, i - 1);
    } else {
      k := i - 1;
    }
  }

  // ---------------------------------------------------------------- the pending record

  /** The selected slot holds a valid image, or is exactly the slot the record names. */
  predicate Accounted(s: State) {
    At(s, s.boot).mark.Valid? || (s.nvs.Some? && s.nvs.value.slot == s.boot)
  }

  /** The two steps that can break this: erasing the record while the selected image is
      not valid yet, and switching to a slot that the record does not name. */
  predicate Unaccounted(s: State, step: Step) {
    || ((step == ClearRecovered(true) || step == ClearValidated(true)) && !At(s, s.boot).mark.Valid?)
    || (step == SetBoot(true) && !(s.nvs.Some? && s.nvs.value.slot == Target(s)))
  }

  lemma StepAccounted(cfg: Config, s: State, step: Step, t: State)
    requires Bootable(cfg, s) && Accounted(s) && Next(cfg, s, step, t)
    ensures Accounted(t) <==> !Unaccounted(s, step)
  {
    hide Matches;
    match step
    case PowerLoss => case OtaBegin(_) => case OtaWrite(_) => case OtaWriteFails => case OtaEnd =>
    case StorePending(_) => case SetBoot(_) => case ClearAfterFailure(_) => case LoadPending(_) =>
    case ReportConfirm(_) => case ClearRecovered(_) => case BusinessReady(_) => case MarkValid(_) =>
    case ReportValidated(_) => case ClearValidated(_) =>
  }

  lemma {:induction false} AccountedUpTo(cfg: Config, states: seq<State>, steps: seq<Step>, n: nat)
    requires Run(cfg, states, steps) && n <= |steps|
    ensures (forall i :: 0 <= i <= n ==> Accounted(states[i]))
            <==> (forall i :: 0 <= i < n ==> !Unaccounted(states[i], steps[i]))
    decreases n
  {
    hide Next, Unaccounted;
    if n == 0 {
      assert Accounted(states[0]);
    } else {
      AccountedUpTo(cfg, states, steps, n - 1);
      RunIsBootable(cfg, states, steps, n - 1);
      assert states[n] == states[n - 1 + 1];
      if Accounted(states[n - 1]) {
        StepAccounted(cfg, states[n - 1], steps[n - 1], states[n]);
      }
    }
  }

  /** Exactly when the selected slot is accounted for in every state of a run, power loss
      between any two steps included. */
  lemma AccountedExactlyWhen(cfg: Config, states: seq<State>, steps: seq<Step>)
    requires Run(cfg, states, steps)
    ensures (forall i :: 0 <= i < |states| ==> Accounted(states[i]))
            <==> (forall i :: 0 <= i < |steps| ==> !Unaccounted(states[i], steps[i]))
  {
    hide Next, Accounted, Unaccounted;
    AccountedUpTo(cfg, states, steps, |steps|);
  }

  /** The confirmation and validation tasks erase the record only while the update task is
      not between storing it and the restart. */
  ghost predicate NoLateErase(states: seq<State>, steps: seq<Step>)
    requires |states| == |steps| + 1
  {
    forall i :: 0 <= i < |steps| ==> !LateErase(states[i], steps[i])
  }

  predicate LateErase(s: State, step: Step) {
    (step == ClearRecovered(true) || step == ClearValidated(true)) && (s.update.Stored? || s.update.Switched?)
  }

  ghost predicate RecordFollows(s: State) {
    && Accounted(s)
    && (s.update.Stored? ==> s.nvs.Some? && s.nvs.value.slot == Target(s))
    && (At(s, s.running).mark.PendingVerify? ==>
          !s.confirm.Recovering? && (s.confirm.Loaded? ==> s.confirm.p.slot == s.running))
  }

  lemma StepKeepsRecord(cfg: Config, s: State, step: Step, t: State)
    requires Bootable(cfg, s) && RecordFollows(s) && Next(cfg, s, step, t) && !LateErase(s, step)
    ensures RecordFollows(t)
  {
    hide Matches;
    match step
    case PowerLoss => case OtaBegin(_) => case OtaWrite(_) => case OtaWriteFails => case OtaEnd =>
    case StorePending(_) => case SetBoot(_) => case ClearAfterFailure(_) => case LoadPending(_) =>
    case ReportConfirm(_) => case ClearRecovered(_) => case BusinessReady(_) => case MarkValid(_) =>
    case ReportValidated(_) => case ClearValidated(_) =>
  }

  /** Without a late erase the selected slot is always accounted for. */
  lemma {:induction false} SerialUseIsAccounted(cfg: Config, states: seq<State>, steps: seq<Step>, i: nat)
    requires Run(cfg, states, steps) && NoLateErase(states, steps) && i <= |steps|
    ensures RecordFollows(states[i])
    decreases i
  {
    hide Next, LateErase, RecordFollows;
    if i == 0 {
      ServiceFollows(states[0]);
    } else {
      SerialUseIsAccounted(cfg, states, steps, i - 1);
      RunIsBootable(cfg, states, steps, i - 1);
      assert !LateErase(states[i - 1], steps[i - 1]);
      StepKeepsRecord(cfg, states[i - 1], steps[i - 1], states[i]);
    }
  }

  lemma ServiceFollows(s: State)
    requires InService(s)
    ensures RecordFollows(s)
  {
  }

  lemma Extend(cfg: Config, states: seq<State>, steps: seq<Step>, step: Step, t: State)
    returns (states': seq<State>, steps': seq<Step>)
    requires Run(cfg, states, steps) && Next(cfg, states[|steps|], step, t)
    ensures steps' == steps + [step] && Run(cfg, states', steps') && states'[|steps'|] == t
  {
    hide Next;
    states', steps' := states + [t], steps + [step];
  }

  /** A device running slot A whose record still names slot B, its confirmation reported. */
  function LeftOver(u: Update, image: seq<Byte>): State {
    State(SlotInfo(Valid, Some([])), SlotInfo(Aborted, Some(image)), SlotA, Some(Pending(u.release, SlotB)),
          SlotA, Idle, Recovering, false, false, NotRunning)
  }

  lemma ReachLeftOver(cfg: Config, u: Update, image: seq<Byte>) returns (states: seq<State>, steps: seq<Step>)
    requires Matches(cfg, u, image)
    ensures Run(cfg, states, steps) && states[|steps|] == LeftOver(u, image)
  {
    hide Run, Matches;
    var s0 := State(SlotInfo(Valid, Some([])), SlotInfo(Aborted, None), SlotA, None,
                    SlotA, Idle, NotStarted, false, false, NotRunning);
    states, steps := [s0], [];
    assert Run(cfg, states, steps) by { RunOfNothing(cfg, s0); }
    var s1 := s0.(update := Writing(u, []));
    states, steps := Extend(cfg, states, steps, OtaBegin(u), s1);
    var s2 := s1.(update := Writing(u, image));
    MatchesSize(cfg, u, image);
    assert [] + image == image;
    states, steps := Extend(cfg, states, steps, OtaWrite(image), s2);
    var s3 := s2.(slotB := SlotInfo(Aborted, Some(image)), update := Written(u));
    states, steps := Extend(cfg, states, steps, OtaEnd, s3);
    var s4 := s3.(nvs := Some(Pending(u.release, SlotB)), update := Stored(u));
    states, steps := Extend(cfg, states, steps, StorePending(true), s4);
    var s5 := s4.(update := Idle);
    states, steps := Extend(cfg, states, steps, PowerLoss, s5);
    var s6 := s5.(confirm := Loaded(Pending(u.release, SlotB)));
    states, steps := Extend(cfg, states, steps, LoadPending(true), s6);
    states, steps := Extend(cfg, states, steps, ReportConfirm(true), LeftOver(u, image));
  }

  lemma MatchesSize(cfg: Config, u: Update, image: seq<Byte>)
    requires Matches(cfg, u, image)
    ensures |image| == u.size
  {
  }

  lemma RunOfNothing(cfg: Config, s: State)
    requires InService(s)
    ensures Run(cfg, [s], [])
  {
  }

  /** The race is real: power is lost before a switch, the recovery of the stale record is
      still being reported when the next update stores its own record and switches, and
      then the recovery erases it. */
  lemma LateEraseLosesTheRecord(cfg: Config, u: Update, image: seq<Byte>)
    returns (states: seq<State>, steps: seq<Step>)
    requires Matches(cfg, u, image)
    ensures Run(cfg, states, steps) && !Accounted(states[|steps|])
  {
    hide Run, Matches;
    states, steps := ReachLeftOver(cfg, u, image);
    var s0 := LeftOver(u, image);
    var s1 := s0.(slotB := SlotInfo(Aborted, None), update := Writing(u, []));
    states, steps := Extend(cfg, states, steps, OtaBegin(u), s1);
    var s2 := s1.(update := Writing(u, image));
    MatchesSize(cfg, u, image);
    assert [] + image == image;
    states, steps := Extend(cfg, states, steps, OtaWrite(image), s2);
    var s3 := s2.(slotB := SlotInfo(Aborted, Some(image)), update := Written(u));
    states, steps := Extend(cfg, states, steps, OtaEnd, s3);
    var s4 := s3.(update := Stored(u));
    states, steps := Extend(cfg, states, steps, StorePending(true), s4);
    var s5 := s4.(slotB := SlotInfo(New, Some(image)), boot := SlotB, update := Switched(u));
    states, steps := Extend(cfg, states, steps, SetBoot(true), s5);
    var s6 := s5.(nvs := None, confirm := Finished);
    states, steps := Extend(cfg, states, steps, ClearRecovered(true), s6);
  }

  // ---------------------------------------------------------------- streaming the artifact

  datatype OtaCode = OtaOk | InvalidResponse | ReadFailed | WriteRefused | EarlyEof

  /** The slot being written, and how many more writes the flash takes. */
  class Partition {
    var content: seq<Byte>
    var writesLeft: nat

    constructor (writes: nat)
      ensures content == [] && writesLeft == writes
    {
      content, writesLeft := [], writes;
    }

    method Write(chunk: seq<Byte>) returns (ok: bool)
      modifies this
      ensures ok <==> old(writesLeft) > 0
      ensures content == if ok then old(content) + chunk else old(content)
      ensures writesLeft == if ok then old(writesLeft) - 1 else 0
    {
      ok := writesLeft > 0;
      if ok {
        content, writesLeft := content + chunk, writesLeft - 1;
      }
    }
  }

  /** The server delivers the artifact of the manifest, whole. */
  predicate Deliverable(cfg: Config, u: Update, contentLength: int, responses: seq<HttpRead>) {
    && 0 < u.size && u.sha256 != "" && (contentLength < 0 || contentLength == u.size)
    && Completes(responses) && |Body(responses)| == u.size && SameText(cfg.digest(Body(responses)), u.sha256)
  }

  /** `cloud_client_stream_ota_artifact` with the partition write as its callback. The
      connection ends when the recorded responses do. */
  method StreamArtifact(cfg: Config, u: Update, contentLength: int, responses: seq<HttpRead>, slot: Partition)
    returns (r: OtaCode, bytesWritten: nat)
    requires slot.content == []
    modifies slot
    ensures r.OtaOk? ==> Completes(responses) && slot.content == Body(responses) && Matches(cfg, u, slot.content)
                         && bytesWritten == u.size && SameText(cfg.digest(slot.content), u.sha256)
    ensures r.InvalidResponse? ==>
              || u.size == 0 || u.sha256 == "" || (contentLength >= 0 && contentLength != u.size)
              || |Body(responses)| > u.size
              || (Completes(responses) && |Body(responses)| == u.size
                  && !SameText(cfg.digest(Body(responses)), u.sha256))
    ensures r.EarlyEof? ==> Completes(responses) && |Body(responses)| < u.size
    ensures (r.ReadFailed? ==> !Completes(responses)) && (r.WriteRefused? ==> slot.writesLeft == 0)
    ensures slot.content <= Body(responses) && bytesWritten == |slot.content|
    ensures Deliverable(cfg, u, contentLength, responses) && old(slot.writesLeft) >= |responses| ==> r.OtaOk?
  {
    hide Body, Completes, Lower, SameText;
    bytesWritten := 0;
    if u.size == 0 || |u.sha256| == 0 {
      return InvalidResponse, 0;
    }
    if contentLength >= 0 && contentLength != u.size {
      return InvalidResponse, 0;
    }
    var seen: seq<Byte> := [];
    var i := 0;
    assert responses[0..] == responses;
    while true
      invariant 0 <= i <= |responses| && slot.content == seen && bytesWritten == |seen| <= u.size
      invariant Body(responses) == seen + Body(responses[i..]) && (Completes(responses) <==> Completes(responses[i..]))
      invariant old(slot.writesLeft) >= |responses| ==> slot.writesLeft >= |responses| - i
      decreases |responses| - i
    {
      if i == |responses| {
        NoBody();
        assert responses[i..] == [];
        return ReadFailed, bytesWritten;
      }
      var read := responses[i];
      BodyStep(responses, i);
      i := i + 1;
      if read.Broken? {
        return ReadFailed, bytesWritten;
      }
      if read.BodyEnd? {
        assert seen == seen + [] == Body(responses);
        break;
      }
      if read.Stall? {
        continue;
      }
      assert |Body(responses)| == |seen| + |read.bytes| + |Body(responses[i..])|;
      if |seen| + |read.bytes| > u.size {
        return InvalidResponse, bytesWritten;
      }
      var ok := slot.Write(read.bytes);
      if !ok {
        return WriteRefused, bytesWritten;
      }
      seen := seen + read.bytes;
      bytesWritten := bytesWritten + |read.bytes|;
    }
    assert seen == Body(responses);
    LowerMeansSameText(cfg.digest(seen), u.sha256);
    if bytesWritten != u.size {
      return EarlyEof, bytesWritten;
    }
    if Lower(cfg.digest(seen)) != Lower(u.sha256) {
      return InvalidResponse, bytesWritten;
    }
    return OtaOk, bytesWritten;
  }

  /** `app_write_ota_inactive_partition`: on success the other slot holds the artifact. */
  method WriteInactivePartition(cfg: Config, u: Update, running: Slot, next: Slot, runningValidated: bool,
                                contentLength: int, responses: seq<HttpRead>, slot: Partition)
    returns (r: OtaCode)
    requires slot.content == []
    modifies slot
    ensures r.OtaOk? ==> next == Other(running) && runningValidated && Matches(cfg, u, slot.content)
                         && slot.content == Body(responses) && Completes(responses)
    ensures (next == Other(running) && runningValidated && Deliverable(cfg, u, contentLength, responses)
             && old(slot.writesLeft) >= |responses|) ==> r.OtaOk?
    ensures next == running || !runningValidated ==> !r.OtaOk? && slot.content == []
  {
    if u.size == 0 || |u.sha256| == 0 {
      return InvalidResponse;
    }
    if next == running {
      return InvalidResponse;
    }
    if !runningValidated {
      // esp_ota_begin while the running image awaits validation
      return WriteRefused;
    }
    var bytesWritten;
    r, bytesWritten := StreamArtifact(cfg, u, contentLength, responses, slot);
    if r.OtaOk? && bytesWritten != u.size {
      r := EarlyEof;
    }
  }
}

/** The update as one protocol: a device that fetches manifests, installs and reports, and the
    server that offers releases and keeps the reports. A report may be recorded although the
    device never learns of it; other devices and operators use the server at any time. */
module OtaProtocol {
  import opened Bytes
  import D = OtaDevice
  import S = OtaServer

  /** The device, the server's tables, the manifest the update task holds, and the record whose
      confirmation the server accepted since the last restart. */
  datatype State = State(device: D.State, db: S.Db, offer: Option<S.Release>, awaiting: Option<D.Pending>)

  datatype Step =
    | Fetch(q: S.Query, offered: Option<S.Release>)
    | Begin
    | ReportSwitch(recorded: bool)
    | Confirm(recorded: bool, accepted: bool)
    | ReportValidated(recorded: bool, accepted: bool)
    | OnDevice(step: D.Step)
    | OnServer(op: S.Op)

  const SWITCHED := "boot_switch_scheduled"
  const CONFIRMED := "post_reboot_confirm"
  const VALIDATED := "app_validated"

  /** What a manifest entry asks the device to install. */
  function UpdateOf(r: S.Release): D.Update {
    D.Update(r.id, if r.size < 0 then 0 else r.size, r.sha256)
  }

  function Recorded(db: S.Db, recorded: bool, report: S.Report): S.Db {
    if recorded then S.Apply(db, S.Submit(report)) else db
  }

  /** A successful report of one of the three stages under the device's name that is not its own. */
  predicate Forged(me: string, op: S.Op) {
    && op.Submit? && op.report.device == me && op.report.ok
    && (op.report.stage == SWITCHED || op.report.stage == CONFIRMED || op.report.stage == VALIDATED)
  }

  predicate Own(step: D.Step) {
    !step.OtaBegin? && !step.ReportConfirm? && !step.ReportValidated?
  }

  ghost predicate Next(cfg: D.Config, me: string, s: State, step: Step, t: State) {
    match step
    case Fetch(q, offered) =>
      && s.device.update.Idle? && q.device == me
      && (offered.Some? ==> S.IsOffer(s.db, q, offered.value))
      && t == s.(offer := offered)
    case Begin =>
      && s.offer.Some?
      && D.Next(cfg, s.device, D.OtaBegin(UpdateOf(s.offer.value)), t.device)
      && t == s.(device := t.device)
    case ReportSwitch(recorded) =>
      && s.device.update.Switched?
      && t == s.(db := Recorded(s.db, recorded, S.Report(me, Some(s.device.update.u.release), SWITCHED, true)))
    case Confirm(recorded, accepted) =>
      && s.device.confirm.Loaded? && (accepted ==> recorded)
      && D.Next(cfg, s.device, D.ReportConfirm(accepted), t.device)
      && (var p, here := s.device.confirm.p, s.device.confirm.p.slot == s.device.running;
          t == s.(device := t.device, awaiting := if accepted && here then Some(p) else s.awaiting,
                  db := Recorded(s.db, recorded, S.Report(me, Some(p.release), CONFIRMED, here))))
    case ReportValidated(recorded, accepted) =>
      && s.device.validate.Marked? && s.awaiting.Some? && (accepted ==> recorded)
      && D.Next(cfg, s.device, D.ReportValidated(accepted), t.device)
      && t == s.(device := t.device,
                 db := Recorded(s.db, recorded,
                                S.Report(me, Some(s.awaiting.value.release), VALIDATED, s.device.validate.ok)))
    case OnDevice(d) =>
      && Own(d) && D.Next(cfg, s.device, d, t.device)
      && t == s.(device := t.device, offer := if d.PowerLoss? then None else s.offer,
                 awaiting := if d.PowerLoss? then None else s.awaiting)
    case OnServer(op) =>
      !Forged(me, op) && t == s.(db := S.Apply(s.db, op))
  }

  /** A device in service, and a server that has heard nothing from it. */
  ghost predicate Start(me: string, s: State) {
    && D.InService(s.device) && s.offer.None? && s.awaiting.None?
    && forall i :: 0 <= i < |s.db.reports| ==> s.db.reports[i].device != me
  }

  ghost predicate Run(cfg: D.Config, me: string, states: seq<State>, steps: seq<Step>) {
    && |states| == |steps| + 1 && Start(me, states[0])
    && forall i :: 0 <= i < |steps| ==> Next(cfg, me, states[i], steps[i], states[i + 1])
  }

  // ---------------------------------------------------------------- what always holds

  /** Some row of the release table asks for this. */
  ghost predicate Listed(db: S.Db, u: D.Update) {
    exists i :: 0 <= i < |db.releases| && UpdateOf(db.releases[i]) == u
  }

  /** The image has the size and the digest of the release. */
  ghost predicate IsImageOf(cfg: D.Config, db: S.Db, release: string, image: seq<Byte>) {
    exists u :: Listed(db, u) && u.release == release && D.Matches(cfg, u, image)
  }

  /** The device runs an image of the release. */
  ghost predicate Runs(cfg: D.Config, s: State, release: string) {
    D.At(s.device, s.device.running).image.Some? &&
    IsImageOf(cfg, s.db, release, D.At(s.device, s.device.running).image.value)
  }

  /** A record that names the running slot names the release that runs there. */
  ghost predicate Truthful(cfg: D.Config, s: State, p: D.Pending) {
    p.slot == s.device.running ==> Runs(cfg, s, p.release)
  }

  predicate Carries(at: D.UpdateAt) {
    at.Writing? || at.Written? || at.Stored? || at.Switched?
  }

  ghost predicate Records(cfg: D.Config, s: State) {
    && (s.device.nvs.Some? ==> Truthful(cfg, s, s.device.nvs.value))
    && (s.device.confirm.Loaded? ==> Truthful(cfg, s, s.device.confirm.p))
    && (s.awaiting.Some? ==> s.awaiting.value.slot == s.device.running && Truthful(cfg, s, s.awaiting.value))
    && (s.device.validationPending ==> s.awaiting.Some?)
  }

  /** While an update or its image is on trial, the record is that update's or gone. */
  ghost predicate Recent(s: State) {
    var d := s.device;
    && (d.nvs.Some? && (d.update.Stored? || d.update.Switched?) ==>
          d.nvs.value == D.Pending(d.update.u.release, D.Target(d)))
    && (d.nvs.Some? && D.At(d, d.boot).mark.PendingVerify? ==> d.nvs.value.slot == d.boot)
  }

  ghost predicate Inv(cfg: D.Config, s: State) {
    && D.Bootable(cfg, s.device)
    && (s.offer.Some? ==> Listed(s.db, UpdateOf(s.offer.value)))
    && (Carries(s.device.update) ==> Listed(s.db, s.device.update.u))
    && Records(cfg, s) && Recent(s)
  }

  lemma ListedStays(db: S.Db, op: S.Op, u: D.Update)
    requires Listed(db, u)
    ensures Listed(S.Apply(db, op), u)
  {
    hide S.Accepts;
    var i :| 0 <= i < |db.releases| && UpdateOf(db.releases[i]) == u;
    assert UpdateOf(S.Apply(db, op).releases[i]) == u;
  }

  lemma ImageStays(cfg: D.Config, db: S.Db, op: S.Op, release: string, image: seq<Byte>)
    requires IsImageOf(cfg, db, release, image)
    ensures IsImageOf(cfg, S.Apply(db, op), release, image)
  {
    hide Listed, D.Matches, S.Apply;
    var u :| Listed(db, u) && u.release == release && D.Matches(cfg, u, image);
    ListedStays(db, op, u);
  }

  lemma RunsStays(cfg: D.Config, s: State, op: S.Op, release: string)
    requires Runs(cfg, s, release)
    ensures Runs(cfg, s.(db := S.Apply(s.db, op)), release)
  {
    hide IsImageOf, S.Apply;
    ImageStays(cfg, s.db, op, release, D.At(s.device, s.device.running).image.value);
  }

  lemma TruthStays(cfg: D.Config, s: State, op: S.Op, p: D.Pending)
    requires Truthful(cfg, s, p)
    ensures Truthful(cfg, s.(db := S.Apply(s.db, op)), p)
  {
    hide Runs, S.Apply;
    if p.slot == s.device.running {
      RunsStays(cfg, s, op, p.release);
    }
  }

  /** The server's tables only ever say more. */
  lemma ServerKeeps(cfg: D.Config, s: State, op: S.Op)
    requires Inv(cfg, s)
    ensures Inv(cfg, s.(db := S.Apply(s.db, op)))
  {
    hide D.Bootable, Listed, Truthful, S.Apply;
    if s.offer.Some? { ListedStays(s.db, op, UpdateOf(s.offer.value)); }
    if Carries(s.device.update) { ListedStays(s.db, op, s.device.update.u); }
    if s.device.nvs.Some? { TruthStays(cfg, s, op, s.device.nvs.value); }
    if s.device.confirm.Loaded? { TruthStays(cfg, s, op, s.device.confirm.p); }
    if s.awaiting.Some? { TruthStays(cfg, s, op, s.awaiting.value); }
  }

  lemma OfferIsListed(db: S.Db, q: S.Query, r: S.Release)
    requires S.IsOffer(db, q, r)
    ensures Listed(db, UpdateOf(r))
  {
    hide S.ReleaseMatches;
    var i :| 0 <= i < |db.releases| && db.releases[i] == r;
  }

  /** After a restart: everything volatile is gone, and if another slot runs now, it is the one
      the update was written to, or the record names the slot that was given up. */
  lemma RestartKeeps(cfg: D.Config, s: State, t: State)
    requires Inv(cfg, s) && t == s.(device := D.Reboot(s.device), offer := None, awaiting := None)
    ensures Records(cfg, t) && Recent(t)
  {
    hide D.Matches, Listed;
    var d := s.device;
    if d.update.Switched? && d.nvs.Some? {
      assert IsImageOf(cfg, s.db, d.update.u.release, D.At(d, d.boot).image.value);
    }
  }

  /** A step of the device that neither starts an update nor reports. */
  lemma OwnStepKeeps(cfg: D.Config, s: State, d: D.Step, t: State)
    requires Inv(cfg, s) && Own(d) && !d.PowerLoss? && D.Next(cfg, s.device, d, t.device)
    requires t == s.(device := t.device)
    ensures Records(cfg, t) && Recent(t)
    ensures Carries(t.device.update) ==> Carries(s.device.update) && t.device.update.u == s.device.update.u
  {
    hide D.Matches, Listed, IsImageOf;
    match d
    case OtaWrite(_) => case OtaWriteFails => case OtaEnd => case StorePending(_) => case SetBoot(_) =>
    case ClearAfterFailure(_) => case LoadPending(_) => case ClearRecovered(_) => case BusinessReady(_) =>
    case MarkValid(_) => case ClearValidated(_) =>
    case _ =>
  }

  lemma BeginKeeps(cfg: D.Config, s: State, u: D.Update, t: State)
    requires Inv(cfg, s) && D.Next(cfg, s.device, D.OtaBegin(u), t.device) && t == s.(device := t.device)
    ensures Records(cfg, t) && Recent(t) && t.device.update == D.Writing(u, [])
  {
    hide D.Matches, Listed, IsImageOf;
  }

  lemma ConfirmKeeps(cfg: D.Config, s: State, accepted: bool, t: State)
    requires Inv(cfg, s) && s.device.confirm.Loaded?
    requires D.Next(cfg, s.device, D.ReportConfirm(accepted), t.device)
    requires var p := s.device.confirm.p;
             t == s.(device := t.device,
                     awaiting := if accepted && p.slot == s.device.running then Some(p) else s.awaiting)
    ensures Records(cfg, t) && Recent(t) && t.device.update == s.device.update
  {
    hide D.Matches, Listed, IsImageOf;
  }

  lemma ValidatedKeeps(cfg: D.Config, s: State, accepted: bool, t: State)
    requires Inv(cfg, s) && D.Next(cfg, s.device, D.ReportValidated(accepted), t.device)
    requires t == s.(device := t.device)
    ensures Records(cfg, t) && Recent(t) && t.device.update == s.device.update
  {
    hide D.Matches, Listed, IsImageOf;
  }

  lemma RecordedKeeps(cfg: D.Config, s: State, recorded: bool, report: S.Report)
    requires Inv(cfg, s)
    ensures Inv(cfg, s.(db := Recorded(s.db, recorded, report)))
  {
    hide Inv, S.Apply;
    ServerKeeps(cfg, s, S.Submit(report));
  }

  lemma StepKeeps(cfg: D.Config, me: string, s: State, step: Step, t: State)
    requires Inv(cfg, s) && Next(cfg, me, s, step, t)
    ensures Inv(cfg, t)
  {
    hide D.Next, D.Bootable, Listed, Records, Recent, Recorded, S.Apply, S.IsOffer;
    match step
    case Fetch(q, offered) =>
      if offered.Some? { OfferIsListed(s.db, q, offered.value); }
      FetchKeeps(cfg, s, offered);
    case Begin =>
      D.StepKeepsBootable(cfg, s.device, D.OtaBegin(UpdateOf(s.offer.value)), t.device);
      BeginKeeps(cfg, s, UpdateOf(s.offer.value), t);
    case ReportSwitch(recorded) =>
      RecordedKeeps(cfg, s, recorded, S.Report(me, Some(s.device.update.u.release), SWITCHED, true));
    case Confirm(recorded, accepted) =>
      D.StepKeepsBootable(cfg, s.device, D.ReportConfirm(accepted), t.device);
      ConfirmKeeps(cfg, s, accepted, t.(db := s.db));
      var p := s.device.confirm.p;
      RecordedKeeps(cfg, t.(db := s.db), recorded,
                    S.Report(me, Some(p.release), CONFIRMED, p.slot == s.device.running));
    case ReportValidated(recorded, accepted) =>
      D.StepKeepsBootable(cfg, s.device, D.ReportValidated(accepted), t.device);
      ValidatedKeeps(cfg, s, accepted, t.(db := s.db));
      RecordedKeeps(cfg, t.(db := s.db), recorded,
                    S.Report(me, Some(s.awaiting.value.release), VALIDATED, s.device.validate.ok));
    case OnDevice(d) =>
      D.StepKeepsBootable(cfg, s.device, d, t.device);
      if d.PowerLoss? {
        PowerLossReboots(cfg, s.device, t.device);
        RestartKeeps(cfg, s, t);
      } else {
        OwnStepKeeps(cfg, s, d, t);
      }
    case OnServer(op) =>
      ServerKeeps(cfg, s, op);
  }

  lemma PowerLossReboots(cfg: D.Config, d: D.State, e: D.State)
    requires D.Next(cfg, d, D.PowerLoss, e)
    ensures e == D.Reboot(d) && !Carries(e.update)
  {
  }

  lemma FetchKeeps(cfg: D.Config, s: State, offered: Option<S.Release>)
    requires Inv(cfg, s)
    ensures Records(cfg, s.(offer := offered)) && Recent(s.(offer := offered))
  {
    hide D.Bootable, Listed, IsImageOf;
  }

  lemma {:induction false} RunKeeps(cfg: D.Config, me: string, states: seq<State>, steps: seq<Step>, i: nat)
    requires Run(cfg, me, states, steps) && i <= |steps|
    ensures Inv(cfg, states[i])
    decreases i
  {
    hide Next, Inv;
    if i == 0 {
      StartInv(cfg, me, states[0]);
    } else {
      RunKeeps(cfg, me, states, steps, i - 1);
      StepKeeps(cfg, me, states[i - 1], steps[i - 1], states[i]);
    }
  }

  lemma StartInv(cfg: D.Config, me: string, s: State)
    requires Start(me, s)
    ensures Inv(cfg, s)
  {
    hide D.Matches, Listed;
  }

  // ---------------------------------------------------------------- what a report proves

  /** The device runs an image of the release and has marked it valid. */
  ghost predicate Installed(cfg: D.Config, s: State, release: string) {
    Runs(cfg, s, release) && D.At(s.device, s.device.running).mark.Valid?
  }

  lemma OneMoreReport(db: S.Db, recorded: bool, report: S.Report, me: string, release: string, stage: string)
    requires S.HasOkReport(Recorded(db, recorded, report), me, release, stage)
    ensures S.HasOkReport(db, me, release, stage) || report == S.Report(me, Some(release), stage, true)
  {
    var all := Recorded(db, recorded, report).reports;
    var i :| 0 <= i < |all| && all[i] == S.Report(me, Some(release), stage, true);
    assert i < |db.reports| ==> all[i] == db.reports[i];
  }

  lemma OthersReportElsewhere(db: S.Db, op: S.Op, me: string, release: string, stage: string)
    requires !Forged(me, op) && (stage == CONFIRMED || stage == VALIDATED)
    requires S.HasOkReport(S.Apply(db, op), me, release, stage)
    ensures S.HasOkReport(db, me, release, stage)
  {
    hide S.Accepts, S.Disable;
    if op.Submit? && S.Accepts(db, op) {
      OneMoreReport(db, true, op.report, me, release, stage);
    }
  }

  /** A successful confirmation that reaches the server proves that the device runs the
      release; a successful validation, that it also marked it valid. */
  lemma NewReport(cfg: D.Config, me: string, s: State, step: Step, t: State, release: string, stage: string)
    requires Inv(cfg, s) && Next(cfg, me, s, step, t) && (stage == CONFIRMED || stage == VALIDATED)
    requires S.HasOkReport(t.db, me, release, stage) && !S.HasOkReport(s.db, me, release, stage)
    ensures stage == CONFIRMED ==> step.Confirm? && Runs(cfg, s, release)
    ensures stage == VALIDATED ==> step.ReportValidated? && Installed(cfg, s, release)
  {
    hide D.Next, Recorded, Listed, IsImageOf, S.HasOkReport, S.Apply, S.IsOffer, Recent;
    match step
    case Fetch(_, _) =>
    case Begin =>
    case ReportSwitch(recorded) =>
      OneMoreReport(s.db, recorded, S.Report(me, Some(s.device.update.u.release), SWITCHED, true), me, release, stage);
    case Confirm(recorded, accepted) =>
      var p := s.device.confirm.p;
      OneMoreReport(s.db, recorded, S.Report(me, Some(p.release), CONFIRMED, p.slot == s.device.running),
                    me, release, stage);
    case ReportValidated(recorded, accepted) =>
      OneMoreReport(s.db, recorded, S.Report(me, Some(s.awaiting.value.release), VALIDATED, s.device.validate.ok),
                    me, release, stage);
    case OnDevice(_) =>
    case OnServer(op) =>
      OthersReportElsewhere(s.db, op, me, release, stage);
  }

  lemma NothingReported(me: string, s: State, release: string, stage: string)
    requires Start(me, s)
    ensures !S.HasOkReport(s.db, me, release, stage)
  {
  }

  /** So every such report the server has is backed by a moment of the run. */
  lemma {:induction false} ReportIsTrue(cfg: D.Config, me: string, states: seq<State>, steps: seq<Step>, n: nat,
                                        release: string, stage: string)
    returns (i: nat)
    requires Run(cfg, me, states, steps) && n <= |steps| && (stage == CONFIRMED || stage == VALIDATED)
    requires S.HasOkReport(states[n].db, me, release, stage)
    ensures i < n && Runs(cfg, states[i], release)
    ensures stage == VALIDATED ==> Installed(cfg, states[i], release)
    decreases n
  {
    hide Next, Inv, Runs, Start, S.HasOkReport;
    if n == 0 {
      NothingReported(me, states[0], release, stage);
    } else if S.HasOkReport(states[n - 1].db, me, release, stage) {
      i := ReportIsTrue(cfg, me, states, steps, n - 1, release, stage);
    } else {
      RunKeeps(cfg, me, states, steps, n - 1);
      NewReport(cfg, me, states[n - 1], steps[n - 1], states[n], release, stage);
      i := n - 1;
    }
  }

  /** A release is closed out for a device only after that device has run an image with the size
      and the digest of the release, and, when validation is required, has marked it valid. */
  lemma ClosedMeansInstalled(cfg: D.Config, me: string, states: seq<State>, steps: seq<Step>, k: nat,
                             id: string, p3d: bool)
    returns (i: nat)
    requires Run(cfg, me, states, steps) && k <= |steps| && S.Accepts(states[k].db, S.CloseOut(id, me, p3d))
    ensures i < k && Runs(cfg, states[i], id)
    ensures p3d ==> Installed(cfg, states[i], id)
  {
    hide Run, Runs, S.HasOkReport;
    assert S.P3C_STAGES[2] == CONFIRMED && S.P3D_STAGES[3] == VALIDATED;
    i := ReportIsTrue(cfg, me, states, steps, k, id, if p3d then VALIDATED else CONFIRMED);
  }

  // ---------------------------------------------------------------- no release twice

  /** The update task holds no manifest for the release. */
  predicate NotHeld(s: State, release: string) {
    s.offer.Some? ==> s.offer.value.id != release
  }

  lemma StaysSuppressed(cfg: D.Config, me: string, s: State, step: Step, t: State, release: string)
    requires Next(cfg, me, s, step, t) && S.Suppressed(s.db, me, release)
    ensures S.Suppressed(t.db, me, release)
  {
    hide D.Next, S.Suppressed, S.Apply, S.IsOffer;
    match step
    case Fetch(_, _) =>
    case Begin =>
    case ReportSwitch(_) =>
      S.StaysSuppressed(s.db, S.Submit(S.Report(me, Some(s.device.update.u.release), SWITCHED, true)), me, release);
    case Confirm(_, _) =>
      var p := s.device.confirm.p;
      var report := S.Report(me, Some(p.release), CONFIRMED, p.slot == s.device.running);
      S.StaysSuppressed(s.db, S.Submit(report), me, release);
    case ReportValidated(_, _) =>
      var report := S.Report(me, Some(s.awaiting.value.release), VALIDATED, s.device.validate.ok);
      S.StaysSuppressed(s.db, S.Submit(report), me, release);
    case OnDevice(_) =>
    case OnServer(op) =>
      S.StaysSuppressed(s.db, op, me, release);
  }

  lemma StaysNotHeld(cfg: D.Config, me: string, s: State, step: Step, t: State, release: string)
    requires Next(cfg, me, s, step, t) && S.Suppressed(s.db, me, release)
    ensures NotHeld(s, release) || step.Fetch? || (step.OnDevice? && step.step.PowerLoss?) ==> NotHeld(t, release)
  {
    hide D.Next, S.Suppressed, S.Apply, Recorded, Forged;
    match step
    case Fetch(q, offered) => case Begin => case ReportSwitch(_) => case Confirm(_, _) =>
    case ReportValidated(_, _) => case OnDevice(_) => case OnServer(_) =>
  }

  /** Once a successful switch or confirmation is recorded, a device that holds no manifest of
      that release never gets one again, so an installation that begins after the report uses a
      manifest that was fetched before it. */
  lemma {:induction false} NeverFetchedAgain(cfg: D.Config, me: string, states: seq<State>, steps: seq<Step>,
                                             i: nat, k: nat, release: string)
    requires Run(cfg, me, states, steps) && i <= k <= |steps|
    requires S.Suppressed(states[i].db, me, release)
    ensures S.Suppressed(states[k].db, me, release)
    ensures NotHeld(states[i], release) ==> NotHeld(states[k], release)
    decreases k
  {
    hide Next, S.Suppressed, NotHeld;
    if i < k {
      NeverFetchedAgain(cfg, me, states, steps, i, k - 1, release);
      StaysSuppressed(cfg, me, states[k - 1], steps[k - 1], states[k], release);
      StaysNotHeld(cfg, me, states[k - 1], steps[k - 1], states[k], release);
    }
  }

  /** Since the last restart the boot slot was switched, or no manifest of the release is held. */
  predicate Settled(s: State, release: string) {
    s.device.update.Switched? || NotHeld(s, release)
  }

  lemma SwitchedWaits(cfg: D.Config, d: D.State, step: D.Step, e: D.State)
    requires D.Next(cfg, d, step, e) && d.update.Switched? && !step.PowerLoss?
    ensures e.update == d.update && !step.OtaBegin?
  {
    hide D.Matches;
    match step
    case OtaBegin(_) => case OtaWrite(_) => case OtaWriteFails => case OtaEnd => case StorePending(_) =>
    case SetBoot(_) => case ClearAfterFailure(_) => case LoadPending(_) => case ReportConfirm(_) =>
    case ClearRecovered(_) => case BusinessReady(_) => case MarkValid(_) => case ReportValidated(_) =>
    case ClearValidated(_) =>
  }

  lemma StaysSettled(cfg: D.Config, me: string, s: State, step: Step, t: State, release: string)
    requires Next(cfg, me, s, step, t) && S.Suppressed(s.db, me, release) && Settled(s, release)
    ensures Settled(t, release) && (step.Begin? ==> NotHeld(s, release))
  {
    StaysNotHeld(cfg, me, s, step, t, release);
    hide D.Next, S.Suppressed, S.Apply, Recorded, Forged, NotHeld;
    if s.device.update.Switched? {
      match step
      case Fetch(_, _) =>
      case Begin => SwitchedWaits(cfg, s.device, D.OtaBegin(UpdateOf(s.offer.value)), t.device);
      case ReportSwitch(_) =>
      case Confirm(_, accepted) => SwitchedWaits(cfg, s.device, D.ReportConfirm(accepted), t.device);
      case ReportValidated(_, accepted) => SwitchedWaits(cfg, s.device, D.ReportValidated(accepted), t.device);
      case OnDevice(d) =>
        if !d.PowerLoss? { SwitchedWaits(cfg, s.device, d, t.device); }
      case OnServer(_) =>
    }
  }

  lemma {:induction false} SettledFromThen(cfg: D.Config, me: string, states: seq<State>, steps: seq<Step>,
                                           i: nat, k: nat, release: string)
    requires Run(cfg, me, states, steps) && i <= k <= |steps|
    requires S.Suppressed(states[i].db, me, release) && Settled(states[i], release)
    ensures Settled(states[k], release)
    decreases k
  {
    hide Next, S.Suppressed, Settled;
    if i < k {
      SettledFromThen(cfg, me, states, steps, i, k - 1, release);
      NeverFetchedAgain(cfg, me, states, steps, i, k - 1, release);
      StaysSettled(cfg, me, states[k - 1], steps[k - 1], states[k], release);
    }
  }

  lemma SwitchIsRecorded(cfg: D.Config, me: string, s: State, t: State)
    requires Next(cfg, me, s, ReportSwitch(true), t)
    ensures S.Suppressed(t.db, me, s.device.update.u.release) && t.device.update == s.device.update
  {
    hide D.Next;
    var release := s.device.update.u.release;
    assert t.db.reports[|s.db.reports|] == S.Report(me, Some(release), S.SUPPRESS_STAGES[0], true);
    assert S.HasOkReport(t.db, me, release, S.SUPPRESS_STAGES[0]);
  }

  /** A release whose boot switch the server has recorded is never begun again on that device,
      whether the new image was kept or rolled back. */
  lemma NeverInstalledTwice(cfg: D.Config, me: string, states: seq<State>, steps: seq<Step>, i: nat, k: nat)
    requires Run(cfg, me, states, steps) && i < k < |steps|
    requires steps[i] == ReportSwitch(true) && states[i].device.update.Switched? && steps[k].Begin?
    ensures states[k].offer.Some? && states[k].offer.value.id != states[i].device.update.u.release
  {
    hide Next, S.Suppressed, Settled;
    var release := states[i].device.update.u.release;
    SwitchIsRecorded(cfg, me, states[i], states[i + 1]);
    assert Settled(states[i + 1], release) by { SwitchedIsSettled(states[i + 1], release); }
    SettledFromThen(cfg, me, states, steps, i + 1, k, release);
    NeverFetchedAgain(cfg, me, states, steps, i + 1, k, release);
    StaysSettled(cfg, me, states[k], steps[k], states[k + 1], release);
    BeginHolds(cfg, me, states[k], states[k + 1]);
  }

  lemma SwitchedIsSettled(s: State, release: string)
    requires s.device.update.Switched?
    ensures Settled(s, release)
  {
  }

  lemma BeginHolds(cfg: D.Config, me: string, s: State, t: State)
    requires Next(cfg, me, s, Begin, t)
    ensures s.offer.Some?
  {
  }

  /** After a recorded confirmation, an installation of the release can begin only before the
      next restart, with the manifest already held. */
  lemma NotAfterRestart(cfg: D.Config, me: string, states: seq<State>, steps: seq<Step>, i: nat, m: nat, k: nat,
                        release: string)
    requires Run(cfg, me, states, steps) && i <= m < k < |steps|
    requires S.Suppressed(states[i].db, me, release) && steps[m] == OnDevice(D.PowerLoss) && steps[k].Begin?
    ensures states[k].offer.Some? && states[k].offer.value.id != release
  {
    hide Next, S.Suppressed;
    NeverFetchedAgain(cfg, me, states, steps, i, m, release);
    StaysSuppressed(cfg, me, states[m], steps[m], states[m + 1], release);
    StaysNotHeld(cfg, me, states[m], steps[m], states[m + 1], release);
    NeverFetchedAgain(cfg, me, states, steps, m + 1, k, release);
    BeginHolds(cfg, me, states[k], states[k + 1]);
  }
}

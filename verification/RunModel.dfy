/** What an applied run leaves behind, event by event, and which events may follow which. */
module RunModel {
  import opened Outcomes

  /** The forward phases of an installation, in order. */
  datatype Phase = Packages | Teardown | ModuleStack | MigMode | DockerRuntime

  function Rank(p: Phase): nat {
    match p
    case Packages => 0
    case Teardown => 1
    case ModuleStack => 2
    case MigMode => 3
    case DockerRuntime => 4
  }

  /** Whose launcher state is being released. */
  datatype Target = InstallTarget | Baseline | OperationTarget

  datatype Event =
    | Bound                       // the snapshot's identity is durably in the journal
    | Quiesced                    // a stop, a mask, or another step towards quarantine
    | Cleared(phase: Phase)       // a workload checkpoint, and the checks after it, passed on a fresh audit
    | Forward(phase: Phase)       // a command of the plan
    | Applied                     // a command of a verification, a policy lock or a rollback
    | Failure                     // a phase failed
    | Pending                     // the target is waiting for a reboot
    | CoreVerified
    | Authorized(target: Target)  // the journal allows launchers to be released
    | Released(target: Target)    // a step of the launcher commit
    | Committed(target: Target)   // the launcher commit returned True
    | Probed                      // a verification workload
    | Compensated                 // a command of the compensating rollback
    | Emergency                   // launchers masked because the journal failed
    | Fenced                      // a fresh audit shows all four launchers inactive and masked
    | Unexplained                 // a launcher commit failed with no finding of its own
    | DockerSeen                  // an audit shows docker.service running

  /** Commands that change the host. */
  predicate Mutates(e: Event) {
    e.Quiesced? || e.Forward? || e.Applied? || e.Released? || e.Probed? || e.Compensated? || e.Emergency?
  }

  /** What says how a run ends: it committed the launchers to an operation's target, it fenced them and released nothing
      since, docker.service was seen running behind a fence, a launcher commit failed with no finding. */
  datatype End = End(achieved: bool, fenced: bool, intruded: bool, unexplained: bool)

  /** What matters about the events so far: `rank` counts the forward phases up to the last one begun. */
  datatype View = View(bound: bool, cleared: bool, checkpointed: bool, rank: nat, stopped: bool, coreVerified: bool,
                       installAuthorized: bool, baselineAuthorized: bool, operationAuthorized: bool,
                       released: bool, committed: bool, compensated: bool, end: End)

  const OPEN := End(false, false, false, false)

  const NOTHING := View(false, false, false, 0, false, false, false, false, false, false, false, false, OPEN)

  function NextEnd(n: End, e: Event): End {
    match e
    case Committed(t) => if t == OperationTarget then n.(achieved := true) else n
    case Fenced => n.(fenced := true)
    case Released(_) => n.(fenced := false)
    case DockerSeen => if n.fenced then n.(intruded := true) else n
    case Unexplained => n.(unexplained := true)
    case _ => n
  }

  function Next(v: View, e: Event): View {
    View(v.bound || e.Bound?, v.cleared || e == Cleared(Packages), v.checkpointed || e == Cleared(ModuleStack),
         if e.Forward? && v.rank <= Rank(e.phase) then Rank(e.phase) + 1 else v.rank,
         v.stopped || e.Failure? || e.Pending?, v.coreVerified || e.CoreVerified?,
         v.installAuthorized || e == Authorized(InstallTarget), v.baselineAuthorized || e == Authorized(Baseline),
         v.operationAuthorized || e == Authorized(OperationTarget), v.released || e == Released(InstallTarget),
         v.committed || e == Committed(InstallTarget), v.compensated || e.Compensated?, NextEnd(v.end, e))
  }

  /** The journal has authorized the release of launchers to a target, and nothing failed since. */
  predicate MayRelease(v: View, t: Target) {
    match t
    case InstallTarget => v.installAuthorized && !v.stopped
    case Baseline => v.baselineAuthorized
    case OperationTarget => v.operationAuthorized && !v.stopped
  }

  /** May this event happen now? */
  predicate Legal(v: View, e: Event) {
    && (Mutates(e) ==> v.bound)
    && match e
       case Forward(p) => !v.stopped && !v.released && v.rank <= Rank(p) + 1
           && (if p == Packages then v.cleared && !v.checkpointed else v.checkpointed)
       case Applied => !v.stopped && v.cleared
       case CoreVerified => !v.stopped
       case Authorized(t) => if t == Baseline then v.compensated else v.coreVerified && !v.stopped
       case Released(t) => MayRelease(v, t)
       case Committed(t) => MayRelease(v, t)
       case Compensated => v.stopped
       case _ => true
  }

  /** What can only grow. */
  ghost predicate Later(v: View, w: View) {
    && (v.bound ==> w.bound) && (v.checkpointed ==> w.checkpointed) && (v.stopped ==> w.stopped) && v.rank <= w.rank
    && (v.compensated ==> w.compensated)
  }

  /** What a release of launchers leaves alone. */
  ghost predicate Kept(v: View, w: View) {
    w.stopped == v.stopped && w.compensated == v.compensated && w.coreVerified == v.coreVerified
  }

  /** What a launcher commit leaves of the view, success apart. */
  ghost predicate Through(v: View, w: View) {
    && Kept(v, w) && w.bound == v.bound && w.operationAuthorized == v.operationAuthorized
    && w.end.intruded == v.end.intruded
  }

  /** The same verdicts on how the run ends. */
  predicate SameEnd(v: View, w: View) {
    w.end.achieved == v.end.achieved && w.end.unexplained == v.end.unexplained
  }

  /** What the view says of the success of a commit to a target. */
  predicate Committal(v: View, t: Target) {
    match t
    case InstallTarget => v.committed
    case OperationTarget => v.end.achieved
    case Baseline => true
  }

  lemma NextIsLater(v: View, e: Event)
    ensures Later(v, Next(v, e))
  {
  }

  lemma NextIsIdempotent(v: View, e: Event)
    ensures Next(Next(v, e), e) == Next(v, e)
  {
  }

  /** A command that may happen may happen again at once. */
  lemma LegalAgain(v: View, e: Event)
    requires Mutates(e) && Legal(v, e)
    ensures Legal(Next(v, e), e)
  {
  }

  lemma ForwardMovesOn(v: View, p: Phase)
    requires Legal(v, Forward(p))
    ensures var w := Next(v, Forward(p)); w == v.(rank := w.rank) && v.rank <= w.rank <= Rank(p) + 1
  {
  }

  /** The views follow the events, each of which was legal. */
  ghost predicate IsRun(log: seq<Event>, views: seq<View>) {
    && |views| == |log| + 1 && views[0] == NOTHING
    && forall i {:trigger log[i]} :: 0 <= i < |log| ==>
         Legal(views[i], log[i]) && views[i + 1] == Next(views[i], log[i])
  }

  // ----- what the rules mean for whole runs

  ghost predicate Before(log: seq<Event>, a: Event, i: int) { exists j :: 0 <= j < i && j < |log| && log[j] == a }

  lemma BeforeNext(log: seq<Event>, n: nat, a: Event)
    requires 0 < n <= |log|
    ensures Before(log, a, n) <==> Before(log, a, n - 1) || a == log[n - 1]
  {
  }

  lemma {:induction false} ViewsGrow(log: seq<Event>, views: seq<View>, i: nat, j: nat)
    requires IsRun(log, views) && i <= j <= |log|
    ensures Later(views[i], views[j])
    decreases j - i
  {
    if i < j {
      ViewsGrow(log, views, i, j - 1);
      NextIsLater(views[j - 1], log[j - 1]);
    }
  }

  /** The view says which events have happened. */
  lemma {:induction false} ViewMeans(log: seq<Event>, views: seq<View>, n: nat)
    requires IsRun(log, views) && n <= |log|
    ensures views[n].bound <==> Before(log, Bound, n)
    ensures views[n].stopped <==> Before(log, Failure, n) || Before(log, Pending, n)
    ensures views[n].coreVerified <==> Before(log, CoreVerified, n)
    ensures views[n].compensated <==> Before(log, Compensated, n)
  {
    if n > 0 {
      ViewMeans(log, views, n - 1);
      BeforeNext(log, n, Bound);
      BeforeNext(log, n, Failure);
      BeforeNext(log, n, Pending);
      BeforeNext(log, n, CoreVerified);
      BeforeNext(log, n, Compensated);
      assert views[n] == Next(views[n - 1], log[n - 1]);
    }
  }

  lemma {:induction false} CheckpointMeans(log: seq<Event>, views: seq<View>, n: nat)
    requires IsRun(log, views) && n <= |log|
    ensures views[n].checkpointed <==> exists j :: 0 <= j < n && log[j] == Cleared(ModuleStack)
  {
    if n > 0 {
      CheckpointMeans(log, views, n - 1);
      assert views[n] == Next(views[n - 1], log[n - 1]);
    }
  }

  predicate Allowed(v: View, t: Target) {
    match t
    case InstallTarget => v.installAuthorized
    case Baseline => v.baselineAuthorized
    case OperationTarget => v.operationAuthorized
  }

  lemma {:induction false} AuthorizationMeans(log: seq<Event>, views: seq<View>, n: nat, t: Target)
    requires IsRun(log, views) && n <= |log|
    ensures Allowed(views[n], t) <==> Before(log, Authorized(t), n)
  {
    if n > 0 {
      AuthorizationMeans(log, views, n - 1, t);
      BeforeNext(log, n, Authorized(t));
      assert views[n] == Next(views[n - 1], log[n - 1]);
    }
  }

  /** A snapshot is bound before anything is changed, at every point where the run might be cut off. */
  lemma RecoveryAuthorityFirst(s: State, i: nat)
    requires s.Valid() && i < |s.log| && Mutates(s.log[i])
    ensures Before(s.log, Bound, i)
  {
    ViewMeans(s.log, s.views, i);
  }

  /** Once a phase has failed or waits for a reboot, no command of the plan is issued, and launchers are released
      to nothing but the baseline. */
  lemma NothingForwardAfterFailure(s: State, i: nat, j: nat)
    requires s.Valid() && i < j < |s.log| && (s.log[i] == Failure || s.log[i] == Pending)
    ensures !s.log[j].Forward? && !s.log[j].Applied?
    ensures s.log[j].Released? || s.log[j].Committed? ==> s.log[j].target == Baseline
  {
    ViewsGrow(s.log, s.views, i + 1, j);
  }

  /** The phases follow their order. */
  lemma PhasesInOrder(s: State, i: nat, j: nat)
    requires s.Valid() && i < j < |s.log| && s.log[i].Forward? && s.log[j].Forward?
    ensures Rank(s.log[i].phase) <= Rank(s.log[j].phase)
  {
    ViewsGrow(s.log, s.views, i + 1, j);
  }

  /** Module, MIG and Docker changes come only after a checkpoint that passed after the last package command. */
  lemma CheckpointBetween(s: State, j: nat)
    requires s.Valid() && j < |s.log| && s.log[j].Forward? && s.log[j].phase != Packages
    ensures exists c :: 0 <= c < j && s.log[c] == Cleared(ModuleStack)
                        && forall k :: 0 <= k < j && s.log[k] == Forward(Packages) ==> k < c
  {
    CheckpointMeans(s.log, s.views, j);
    var c :| 0 <= c < j && s.log[c] == Cleared(ModuleStack);
    forall k | 0 <= k < j && s.log[k] == Forward(Packages)
      ensures k < c
    {
      assert !s.views[k].checkpointed;
      CheckpointMeans(s.log, s.views, k);
    }
  }

  /** Nothing is compensated without a failure or a pending reboot. */
  lemma CompensationHasCause(s: State, i: nat)
    requires s.Valid() && i < |s.log| && s.log[i] == Compensated
    ensures Before(s.log, Failure, i) || Before(s.log, Pending, i)
  {
    ViewMeans(s.log, s.views, i);
  }

  lemma MayReleaseMeans(log: seq<Event>, views: seq<View>, n: nat, t: Target)
    requires IsRun(log, views) && n <= |log| && MayRelease(views[n], t)
    ensures Before(log, Authorized(t), n)
  {
    AuthorizationMeans(log, views, n, t);
  }

  /** Launchers are released only after the journal allowed it. */
  lemma ReleaseIsAuthorized(s: State, i: nat)
    requires s.Valid() && i < |s.log| && s.log[i].Released?
    ensures Before(s.log, Authorized(s.log[i].target), i)
  {
    assert MayRelease(s.views[i], s.log[i].target);
    MayReleaseMeans(s.log, s.views, i, s.log[i].target);
  }

  /** The journal allows a release to the baseline only after compensation, and to any other state only after its
      core was verified. */
  lemma AuthorizationIsEarned(s: State, i: nat)
    requires s.Valid() && i < |s.log| && s.log[i].Authorized?
    ensures Before(s.log, if s.log[i].target == Baseline then Compensated else CoreVerified, i)
  {
    ViewMeans(s.log, s.views, i);
  }

  /** A launcher commit returns True only after the journal allowed it. */
  lemma CommitIsAuthorized(s: State, i: nat)
    requires s.Valid() && i < |s.log| && s.log[i].Committed?
    ensures Before(s.log, Authorized(s.log[i].target), i)
  {
    assert MayRelease(s.views[i], s.log[i].target);
    MayReleaseMeans(s.log, s.views, i, s.log[i].target);
  }

  // ----- how a run ended

  /** The launchers were committed to a target, after the journal allowed it, after the target was earned. */
  ghost predicate CommittedTo(log: seq<Event>, t: Target) {
    exists a, c :: 0 <= a < c < |log| && log[c] == Committed(t) && log[a] == Authorized(t)
                   && Before(log, if t == Baseline then Compensated else CoreVerified, a)
  }

  /** From position i on all launchers are fenced, up to n. */
  predicate FencedFrom(log: seq<Event>, i: nat, n: nat) {
    i < n <= |log| && log[i] == Fenced && forall j :: i < j < n ==> !log[j].Released?
  }

  ghost predicate EndsFenced(log: seq<Event>) { exists i: nat :: FencedFrom(log, i, |log|) }

  /** docker.service was seen running though this run had fenced it and released nothing since. */
  ghost predicate Intruded(log: seq<Event>) {
    exists i: nat, j: nat :: j < |log| && log[j] == DockerSeen && FencedFrom(log, i, j)
  }

  lemma CommitMeans(s: State, t: Target)
    requires s.Valid() && Before(s.log, Committed(t), |s.log|)
    ensures CommittedTo(s.log, t)
  {
    var c :| 0 <= c < |s.log| && s.log[c] == Committed(t);
    CommitIsAuthorized(s, c);
    var a :| 0 <= a < c && s.log[a] == Authorized(t);
    AuthorizationIsEarned(s, a);
  }

  lemma {:induction false} FenceMeans(log: seq<Event>, views: seq<View>, n: nat) returns (i: nat)
    requires IsRun(log, views) && n <= |log| && views[n].end.fenced
    ensures FencedFrom(log, i, n)
  {
    var e := log[n - 1];
    assert views[n] == Next(views[n - 1], e);
    if e == Fenced { i := n - 1; } else { i := FenceMeans(log, views, n - 1); }
  }

  lemma {:induction false} EndMeans(log: seq<Event>, views: seq<View>, n: nat)
    requires IsRun(log, views) && n <= |log|
    ensures views[n].committed <==> Before(log, Committed(InstallTarget), n)
    ensures views[n].end.achieved <==> Before(log, Committed(OperationTarget), n)
    ensures views[n].end.unexplained <==> Before(log, Unexplained, n)
  {
    if n > 0 {
      EndMeans(log, views, n - 1);
      BeforeNext(log, n, Committed(InstallTarget));
      BeforeNext(log, n, Committed(OperationTarget));
      BeforeNext(log, n, Unexplained);
      assert views[n] == Next(views[n - 1], log[n - 1]);
    }
  }

  lemma {:induction false} IntrusionMeans(log: seq<Event>, views: seq<View>, n: nat)
    requires IsRun(log, views) && n <= |log| && views[n].end.intruded
    ensures Intruded(log)
  {
    assert views[n] == Next(views[n - 1], log[n - 1]);
    if views[n - 1].end.intruded {
      IntrusionMeans(log, views, n - 1);
    } else {
      var i := FenceMeans(log, views, n - 1);
      assert log[n - 1] == DockerSeen;
    }
  }

  /** What the last view of a run says of its end. */
  lemma RunEnded(s: State)
    requires s.Valid()
    ensures s.view.end.achieved <==> CommittedTo(s.log, OperationTarget)
    ensures s.view.end.unexplained <==> Unexplained in s.log
    ensures s.view.operationAuthorized ==> Authorized(OperationTarget) in s.log
    ensures s.view.end.intruded ==> Intruded(s.log)
    ensures s.view.end.fenced ==> EndsFenced(s.log)
  {
    EndMeans(s.log, s.views, |s.log|);
    AuthorizationMeans(s.log, s.views, |s.log|, OperationTarget);
    if s.view.end.fenced { var i := FenceMeans(s.log, s.views, |s.log|); }
    if s.view.end.intruded { IntrusionMeans(s.log, s.views, |s.log|); }
    if s.view.end.achieved { CommitMeans(s, OperationTarget); }
    if Unexplained in s.log {
      var i :| 0 <= i < |s.log| && s.log[i] == Unexplained;
      assert Before(s.log, Unexplained, |s.log|);
    }
  }

  lemma SeenBehindFence(s: State)
    requires s.Valid() && s.EndsWith(DockerSeen) && s.view.end.fenced
    ensures s.view.end.intruded
  {
    var n := |s.log|;
    assert s.views[n] == Next(s.views[n - 1], s.log[n - 1]);
  }

  /** The same for an installation. */
  lemma InstallEnded(s: State)
    requires s.Valid()
    ensures s.view.committed ==> CommittedTo(s.log, InstallTarget)
    ensures !s.view.stopped ==> Failure !in s.log && Pending !in s.log && Compensated !in s.log
  {
    EndMeans(s.log, s.views, |s.log|);
    if s.view.committed { CommitMeans(s, InstallTarget); }
    ViewMeans(s.log, s.views, |s.log|);
    if s.view.compensated { CompensatedMeansStopped(s); }
    forall e | e in s.log
      ensures Before(s.log, e, |s.log|)
    {
    }
  }

  // ----- all of it at once

  /** Everything that the rules mean, said of the events alone. */
  ghost predicate Safe(log: seq<Event>) {
    && (forall i :: 0 <= i < |log| ==> Earned(log, i))
    && (forall i, j :: 0 <= i < j < |log| ==> Follows(log[i], log[j]))
  }

  /** What has to happen before an event. */
  ghost predicate Earned(log: seq<Event>, i: nat)
    requires i < |log|
  {
    && (Mutates(log[i]) ==> Before(log, Bound, i))
    && (log[i].Forward? && log[i].phase != Packages ==> Before(log, Cleared(ModuleStack), i))
    && (log[i].Compensated? ==> Before(log, Failure, i) || Before(log, Pending, i))
    && (log[i].Released? || log[i].Committed? ==> Before(log, Authorized(log[i].target), i))
    && (log[i].Authorized? ==> Before(log, if log[i].target == Baseline then Compensated else CoreVerified, i))
  }

  /** What may come after an event. */
  predicate Follows(e: Event, later: Event) {
    && (e.Failure? || e.Pending? ==>
          && !later.Forward? && !later.Applied?
          && (later.Released? || later.Committed? ==> later.target == Baseline))
    && (e.Forward? && later.Forward? ==> Rank(e.phase) <= Rank(later.phase))
    && (e == Cleared(ModuleStack) ==> later != Forward(Packages))
  }

  lemma EventIsEarned(s: State, i: nat)
    requires s.Valid() && i < |s.log|
    ensures Earned(s.log, i)
  {
    var e := s.log[i];
    if Mutates(e) { RecoveryAuthorityFirst(s, i); }
    match e
    case Forward(_) => if e.phase != Packages { CheckpointBetween(s, i); }
    case Compensated => CompensationHasCause(s, i);
    case Released(_) => ReleaseIsAuthorized(s, i);
    case Committed(_) => CommitIsAuthorized(s, i);
    case Authorized(_) => AuthorizationIsEarned(s, i);
    case _ =>
  }

  lemma EventsFollow(s: State, i: nat, j: nat)
    requires s.Valid() && i < j < |s.log|
    ensures Follows(s.log[i], s.log[j])
  {
    ViewsGrow(s.log, s.views, i + 1, j);
  }

  lemma ValidIsSafe(s: State)
    requires s.Valid()
    ensures Safe(s.log)
  {
    forall i | 0 <= i < |s.log|
      ensures Earned(s.log, i)
    {
      EventIsEarned(s, i);
    }
    forall i, j | 0 <= i < j < |s.log|
      ensures Follows(s.log[i], s.log[j])
    {
      EventsFollow(s, i, j);
    }
  }

  // ----- the state of a run

  /** The log with the view before and after each event, whether a host command was started, and what the
      report says so far: how many commands failed and whether the last one did, whether all verifications are
      good, and whether there is an error finding that the final report keeps. */
  datatype State = State(log: seq<Event>, views: seq<View>, view: View, mutating: bool, failed: nat, lastFailed: bool,
                         checksOk: bool, keptError: bool) {
    ghost predicate Valid() {
      IsRun(log, views) && views[|log|] == view && (mutating ==> view.bound)
    }

    predicate CommandsOk() { failed == 0 }

    /** The last thing that happened. */
    predicate EndsWith(e: Event) { |log| > 0 && log[|log| - 1] == e }
  }

  /** No run has begun. */
  const START := State([], [NOTHING], NOTHING, false, 0, false, true, false)

  /** Nothing in the report speaks against the run. */
  predicate Spotless(s: State) { s.CommandsOk() && s.checksOk && !s.keptError }

  /** Checks and findings are as they were. */
  predicate SameReport(s: State, t: State) { t.checksOk == s.checksOk && t.keptError == s.keptError }

  predicate SameCommands(s: State, t: State) {
    t.mutating == s.mutating && t.failed == s.failed && t.lastFailed == s.lastFailed
  }

  /** A run only spoils its report. */
  ghost predicate Grew(s: State, t: State) {
    && t.Valid() && (s.mutating ==> t.mutating) && Later(s.view, t.view)
    && s.failed <= t.failed && (t.checksOk ==> s.checksOk) && (s.keptError ==> t.keptError)
  }

  /** No further command failed, or only the last one did. */
  predicate UpToFirstFailure(s: State, t: State, ok: bool) {
    if ok then t.failed == s.failed else t.failed == s.failed + 1 && t.lastFailed
  }

  /** The state after one more event. */
  function After(s: State, e: Event): State {
    var view := Next(s.view, e);
    s.(log := s.log + [e], views := s.views + [view], view := view)
  }

  lemma EventIsSafe(s: State, e: Event)
    requires s.Valid() && Legal(s.view, e)
    ensures Grew(s, After(s, e))
  {
    RunGoesOn(s.log, s.views, e, Next(s.view, e));
    NextIsLater(s.view, e);
  }

  lemma RunGoesOn(log: seq<Event>, views: seq<View>, e: Event, next: View)
    requires IsRun(log, views) && Legal(views[|log|], e) && next == Next(views[|log|], e)
    ensures IsRun(log + [e], views + [next]) && (views + [next])[|log + [e]|] == next
  {
  }

  /** Compensation leaves its cause in the view. */
  lemma CompensatedMeansStopped(s: State)
    requires s.Valid() && s.view.compensated
    ensures s.view.stopped
  {
    ViewMeans(s.log, s.views, |s.log|);
    var i :| 0 <= i < |s.log| && s.log[i] == Compensated;
    CompensationHasCause(s, i);
  }
}

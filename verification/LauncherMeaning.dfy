/** What the monitor's verdicts say about the events of a run themselves. Every statement ranges
    over all positions of the log, so it holds at each point where a run may have been cut short. */
module LauncherMeaning {
  import opened Outcomes
  import opened LauncherModel

  predicate MutatesUnit(e: Event, u: Unit) {
    (e.Systemctl? || e.EmergencyMasked?) && e.unit == u
  }

  /** Audit a was followed by no mutation of any launcher before position n. */
  predicate StillHolds(log: seq<Event>, a: nat, n: nat) {
    a < n <= |log| && log[a].Audited? && forall i :: a < i < n ==> !Mutates(log[i])
  }

  /** Unit u was audited at its target and not mutated before position n. */
  predicate SettledAt(g: Goal, log: seq<Event>, u: Unit, a: nat, n: nat) {
    && a < n <= |log| && log[a].Audited? && log[a].audit.launchers.Of(u) == g.target.Of(u)
    && forall i :: a < i < n ==> !MutatesUnit(log[i], u)
  }

  /** The probe at k is a passed workload gate: the audit at a shows the daemon and still holds. */
  predicate GatedAt(g: Goal, log: seq<Event>, a: nat, k: nat) {
    && k < |log| && StillHolds(log, a, k)
    && log[a].audit.launchers.dockerService.active == Some(true)
    && log[k].Probed? && Acceptable(log[k].workloads, g.allowActive)
  }

  ghost predicate GatedBetween(g: Goal, log: seq<Event>, i: nat, n: nat) {
    exists a: nat, k: nat :: i < a < k < n && GatedAt(g, log, a, k)
  }

  /** Docker is untouched until an NVIDIA unit was seen at its exact target. */
  ghost predicate NvidiaFirst(g: Goal, log: seq<Event>) {
    forall j: nat, u: Unit {:trigger log[j], IsDocker(u)} ::
      j < |log| && ReleasesDocker(log[j]) && !IsDocker(u) ==> exists a: nat :: SettledAt(g, log, u, a, j)
  }

  /** NVIDIA units are never released again after a Docker unit. */
  ghost predicate NvidiaNeverAgain(log: seq<Event>) {
    forall i: nat, j: nat :: i < j < |log| && ReleasesDocker(log[i]) ==> !ReleasesNvidia(log[j])
  }

  /** No Docker unit becomes persistent with a start of the daemon that no gate followed. */
  ghost predicate GatedBeforePersistent(g: Goal, log: seq<Event>) {
    forall i: nat, j: nat :: i < j < |log| && StartsDocker(log[i]) && EnablesDocker(log[j]) ==>
      GatedBetween(g, log, i, j)
  }

  /** Once docker.socket has its final persistent state nothing is released any more. */
  ghost predicate SocketLast(log: seq<Event>) {
    forall i: nat, j: nat :: i < j < |log| && FinalizesSocket(log[i]) ==> !Releases(log[j])
  }

  /** Once docker.service has its final persistent state only docker.socket is released. */
  ghost predicate ServiceBeforeSocket(log: seq<Event>) {
    forall i: nat, j: nat :: i < j < |log| && FinalizesService(log[i]) && Releases(log[j]) ==>
      log[j].unit == DockerSocket
  }

  /** Once either has, no other launcher is touched in any way. */
  ghost predicate OnlySocketAfterwards(log: seq<Event>) {
    forall i: nat, j: nat ::
      i < j < |log| && (FinalizesService(log[i]) || FinalizesSocket(log[i])) && Mutates(log[j]) ==>
        MutatesUnit(log[j], DockerSocket)
  }

  /** The release order, stated on the events alone. */
  ghost predicate OrderKept(g: Goal, log: seq<Event>) {
    && NvidiaFirst(g, log) && NvidiaNeverAgain(log) && GatedBeforePersistent(g, log)
    && ServiceBeforeSocket(log) && SocketLast(log)
  }

  function Rank(c: Closing): nat {
    match c
    case Open => 0
    case ServiceFinal => 1
    case SocketFinal => 2
    case Strayed => 3
  }

  lemma {:induction false} DisorderPersists(g: Goal, log: seq<Event>, ms: seq<Monitor>, i: nat, j: nat)
    requires IsRun(g, log, ms) && i <= j <= |log|
    ensures ms[i].progress.disorder ==> ms[j].progress.disorder
    ensures ms[i].progress.dockerReleased ==> ms[j].progress.dockerReleased
    ensures Rank(ms[i].progress.closing) <= Rank(ms[j].progress.closing)
    decreases j
  {
    if i < j {
      DisorderPersists(g, log, ms, i, j - 1);
      var e := log[j - 1];
    }
  }

  /** A clean summary knows where its last audit is. */
  lemma {:induction false} LastAuditAt(g: Goal, log: seq<Event>, ms: seq<Monitor>, n: nat) returns (a: nat)
    requires IsRun(g, log, ms) && n <= |log| && ms[n].view.last.Some?
    ensures a < n && log[a] == Audited(ms[n].view.last.value)
    ensures forall i :: a < i < n ==> !log[i].Audited?
    ensures !ms[n].view.dirty ==> StillHolds(log, a, n)
    decreases n
  {
    var e := log[n - 1];
    if e.Audited? {
      a := n - 1;
    } else {
      a := LastAuditAt(g, log, ms, n - 1);
    }
  }

  lemma {:induction false} SettledSince(g: Goal, log: seq<Event>, ms: seq<Monitor>, n: nat, u: Unit) returns (a: nat)
    requires IsRun(g, log, ms) && n <= |log| && ms[n].settled.Of(u)
    ensures SettledAt(g, log, u, a, n)
    decreases n
  {
    var e := log[n - 1];
    if e.Audited? && e.audit.launchers.Of(u) == g.target.Of(u) {
      a := n - 1;
    } else {
      a := SettledSince(g, log, ms, n - 1, u);
    }
  }

  lemma {:induction false} GatedSince(g: Goal, log: seq<Event>, ms: seq<Monitor>, i: nat, n: nat)
    requires IsRun(g, log, ms) && i < n <= |log|
    requires StartsDocker(log[i]) && !ms[n].progress.unproven
    ensures GatedBetween(g, log, i, n)
    decreases n
  {
    var e := log[n - 1];
    if !ms[n - 1].progress.unproven {
      assert i < n - 1;
      GatedSince(g, log, ms, i, n - 1);
    } else {
      var a := LastAuditAt(g, log, ms, n - 1);
      assert GatedAt(g, log, a, n - 1);
      if a <= i { assert Mutates(log[i]); }
    }
  }

  lemma InOrderAt(g: Goal, log: seq<Event>, ms: seq<Monitor>, j: nat)
    requires IsRun(g, log, ms) && !ms[|log|].progress.disorder && j < |log|
    ensures !BreaksOrder(ms[j], log[j])
  {
    DisorderPersists(g, log, ms, j + 1, |log|);
  }

  lemma NvidiaFirstHolds(g: Goal, log: seq<Event>, ms: seq<Monitor>)
    requires IsRun(g, log, ms) && !ms[|log|].progress.disorder
    ensures NvidiaFirst(g, log)
  {
    forall j: nat, u: Unit | j < |log| && ReleasesDocker(log[j]) && !IsDocker(u)
      ensures exists a: nat :: SettledAt(g, log, u, a, j)
    {
      InOrderAt(g, log, ms, j);
      assert ms[j].settled.Of(u);
      var a := SettledSince(g, log, ms, j, u);
    }
  }

  lemma NvidiaNeverAgainHolds(g: Goal, log: seq<Event>, ms: seq<Monitor>)
    requires IsRun(g, log, ms) && !ms[|log|].progress.disorder
    ensures NvidiaNeverAgain(log)
  {
    forall i: nat, j: nat | i < j < |log| && ReleasesDocker(log[i])
      ensures !ReleasesNvidia(log[j])
    {
      DisorderPersists(g, log, ms, i + 1, j);
      InOrderAt(g, log, ms, j);
    }
  }

  lemma GatedBeforePersistentHolds(g: Goal, log: seq<Event>, ms: seq<Monitor>)
    requires IsRun(g, log, ms) && !ms[|log|].progress.disorder
    ensures GatedBeforePersistent(g, log)
  {
    forall i: nat, j: nat | i < j < |log| && StartsDocker(log[i]) && EnablesDocker(log[j])
      ensures GatedBetween(g, log, i, j)
    {
      InOrderAt(g, log, ms, j);
      GatedSince(g, log, ms, i, j);
    }
  }

  lemma SocketLastHolds(g: Goal, log: seq<Event>, ms: seq<Monitor>)
    requires IsRun(g, log, ms) && !ms[|log|].progress.disorder
    ensures SocketLast(log)
  {
    forall i: nat, j: nat | i < j < |log| && FinalizesSocket(log[i])
      ensures !Releases(log[j])
    {
      DisorderPersists(g, log, ms, i + 1, j);
      InOrderAt(g, log, ms, j);
    }
  }

  lemma ServiceBeforeSocketHolds(g: Goal, log: seq<Event>, ms: seq<Monitor>)
    requires IsRun(g, log, ms) && !ms[|log|].progress.disorder
    ensures ServiceBeforeSocket(log)
  {
    forall i: nat, j: nat | i < j < |log| && FinalizesService(log[i]) && Releases(log[j])
      ensures log[j].unit == DockerSocket
    {
      DisorderPersists(g, log, ms, i + 1, j);
      InOrderAt(g, log, ms, j);
    }
  }

  /** A run that has not strayed touched nothing but docker.socket at its end. */
  lemma OnlySocketAfterwardsHolds(g: Goal, log: seq<Event>, ms: seq<Monitor>)
    requires IsRun(g, log, ms) && ms[|log|].progress.closing != Strayed
    ensures OnlySocketAfterwards(log)
  {
    forall i: nat, j: nat | i < j < |log| && (FinalizesService(log[i]) || FinalizesSocket(log[i])) && Mutates(log[j])
      ensures MutatesUnit(log[j], DockerSocket)
    {
      DisorderPersists(g, log, ms, i + 1, j);
      DisorderPersists(g, log, ms, j + 1, |log|);
    }
  }

  /** A run whose monitor saw no disorder respects the release order at every position. */
  lemma OrderlyRunsKeepOrder(g: Goal, log: seq<Event>, ms: seq<Monitor>)
    requires IsRun(g, log, ms) && !ms[|log|].progress.disorder
    ensures OrderKept(g, log)
  {
    NvidiaFirstHolds(g, log, ms);
    NvidiaNeverAgainHolds(g, log, ms);
    GatedBeforePersistentHolds(g, log, ms);
    ServiceBeforeSocketHolds(g, log, ms);
    SocketLastHolds(g, log, ms);
  }

  // ----- process identity

  predicate ResetsProcess(e: Event, u: Unit) {
    || (e.Systemctl? && e.unit == u && (e.verb == Start || e.verb == Stop || e.verb == Mask))
    || e == EmergencyMasked(u)
  }

  predicate ReadAt(log: seq<Event>, u: Unit, id: nat, i: nat) {
    i < |log| && log[i] == IdentityRead(u, Some(id))
  }

  /** From s on, u was not restarted and every reading of it reports one process. */
  predicate OneProcess(log: seq<Event>, u: Unit, id: nat, s: nat, n: nat) {
    && s <= n <= |log|
    && forall i :: s <= i < n ==>
         !ResetsProcess(log[i], u) && (log[i].IdentityRead? && log[i].unit == u ==> log[i].identity == Some(id))
  }

  /** Readings of the process from s on bracket k audits in turn. */
  ghost predicate Brackets(log: seq<Event>, u: Unit, id: nat, s: nat, n: nat, k: nat)
    decreases k
  {
    if k == 0 then exists r: nat :: s <= r < n && ReadAt(log, u, id, r)
    else
      exists a: nat, r: nat ::
        s <= a < r < n <= |log| && log[a].Audited? && ReadAt(log, u, id, r) && Brackets(log, u, id, s, a, k - 1)
  }

  lemma BracketsExtend(log: seq<Event>, u: Unit, id: nat, s: nat, n: nat, n': nat, k: nat)
    requires Brackets(log, u, id, s, n, k) && n <= n' <= |log|
    ensures Brackets(log, u, id, s, n', k)
  {}

  /** Some audit before n that the readings bracket k audits up to. */
  ghost predicate BracketsUpToAudit(log: seq<Event>, u: Unit, id: nat, s: nat, n: nat, k: nat) {
    exists a: nat :: a < n <= |log| && log[a].Audited? && Brackets(log, u, id, s, a, k)
  }

  /** The process was read after the last audit before n. */
  ghost predicate ReadSinceAudit(log: seq<Event>, u: Unit, id: nat, n: nat) {
    exists r: nat :: r < n <= |log| && ReadAt(log, u, id, r) && forall i :: r < i < n ==> !log[i].Audited?
  }

  /** What the summary's account of a bound process says about the events. */
  ghost predicate Accounts(log: seq<Event>, u: Unit, p: Process, early: bool, late: bool, s: nat, n: nat)
    requires p.Bound?
  {
    && OneProcess(log, u, p.id, s, n)
    && Brackets(log, u, p.id, s, n, p.spans)
    && (early && !late ==> BracketsUpToAudit(log, u, p.id, s, n, p.spans))
    && (late ==> ReadSinceAudit(log, u, p.id, n))
  }

  /** An audit or an unrelated event keeps the account. */
  lemma AccountsCarry(log: seq<Event>, u: Unit, p: Process, early: bool, late: bool, s: nat, n: nat, late': bool)
    requires p.Bound? && n < |log| && Accounts(log, u, p, early, late, s, n)
    requires !ResetsProcess(log[n], u) && !(log[n].IdentityRead? && log[n].unit == u)
    requires if log[n].Audited? then !late' else late' == late
    ensures Accounts(log, u, p, early || log[n].Audited?, late', s, n + 1)
  {
  }

  /** Another reading of the same process; the first one after an audit brackets it. */
  lemma AccountsReread(log: seq<Event>, u: Unit, p: Process, early: bool, late: bool, s: nat, n: nat)
    requires p.Bound? && n < |log| && Accounts(log, u, p, early, late, s, n)
    requires log[n] == IdentityRead(u, Some(p.id))
    ensures Accounts(log, u, Bound(p.id, if early && !late then p.spans + 1 else p.spans), early, true, s, n + 1)
  {
    assert ReadAt(log, u, p.id, n);
    assert ReadSinceAudit(log, u, p.id, n + 1);
    BracketsExtend(log, u, p.id, s, n, n + 1, p.spans);
    if early && !late {
      var a: nat :| a < n && log[a].Audited? && Brackets(log, u, p.id, s, a, p.spans);
      BracketsBegin(log, u, p.id, s, a, p.spans);
      assert Brackets(log, u, p.id, s, n + 1, p.spans + 1);
    }
  }

  lemma AccountsFirst(log: seq<Event>, u: Unit, id: nat, early: bool, n: nat)
    requires n < |log| && log[n] == IdentityRead(u, Some(id))
    ensures Accounts(log, u, Bound(id, 0), early, true, n, n + 1)
  {
    assert ReadAt(log, u, id, n);
  }

  /** How one event changes what is known about the process of u. */
  lemma ProcessStep(g: Goal, m: Monitor, e: Event, u: Unit)
    ensures var m' := Step(g, m, e); var p := m.processes.Of(u);
            if e.IdentityRead? && e.unit == u then
              && m'.processes.Of(u) == ProcessAfterReading(p, e.identity, m.view.early.Of(u) && !m.view.late.Of(u))
              && m'.view.late.Of(u) && m'.view.early.Of(u) == m.view.early.Of(u)
            else if ResetsProcess(e, u) then m'.processes.Of(u) == Unread
            else
              && m'.processes.Of(u) == p
              && (if e.Audited? then !m'.view.late.Of(u) && m'.view.early.Of(u) == p.Bound?
                  else m'.view.late.Of(u) == m.view.late.Of(u) && m'.view.early.Of(u) == m.view.early.Of(u))
  {}

  ghost predicate AccountsFor(log: seq<Event>, u: Unit, m: Monitor, s: nat, n: nat) {
    m.processes.Of(u).Bound? ==>
      Accounts(log, u, m.processes.Of(u), m.view.early.Of(u), m.view.late.Of(u), s, n)
  }

  lemma AccountsStep(g: Goal, log: seq<Event>, m: Monitor, n: nat, u: Unit, s: nat)
    requires n < |log| && m.processes.Of(u).Bound? && AccountsFor(log, u, m, s, n)
    ensures AccountsFor(log, u, Step(g, m, log[n]), s, n + 1)
  {
    var e, p, early, late := log[n], m.processes.Of(u), m.view.early.Of(u), m.view.late.Of(u);
    ProcessStep(g, m, e, u);
    if e == IdentityRead(u, Some(p.id)) {
      AccountsReread(log, u, p, early, late, s, n);
    } else if !ResetsProcess(e, u) && !(e.IdentityRead? && e.unit == u) {
      AccountsCarry(log, u, p, early, late, s, n, Step(g, m, e).view.late.Of(u));
    }
  }

  lemma AccountsBegin(g: Goal, log: seq<Event>, m: Monitor, n: nat, u: Unit)
    requires n < |log| && !m.processes.Of(u).Bound?
    ensures AccountsFor(log, u, Step(g, m, log[n]), n, n + 1)
  {
    ProcessStep(g, m, log[n], u);
    if log[n].IdentityRead? && log[n].unit == u && log[n].identity.Some? {
      AccountsFirst(log, u, log[n].identity.value, m.view.early.Of(u), n);
    }
  }

  /** The bound process of a summary, read off the events from a position s on. */
  lemma {:induction false} BoundMeans(g: Goal, log: seq<Event>, ms: seq<Monitor>, n: nat, u: Unit) returns (s: nat)
    requires IsRun(g, log, ms) && n <= |log|
    ensures AccountsFor(log, u, ms[n], s, n)
    decreases n
  {
    if n == 0 {
      s := 0;
    } else {
      s := BoundMeans(g, log, ms, n - 1, u);
      var e := log[n - 1];
      if ms[n - 1].processes.Of(u).Bound? {
        AccountsStep(g, log, ms[n - 1], n - 1, u, s);
      } else {
        s := n - 1;
        AccountsBegin(g, log, ms[n - 1], n - 1, u);
      }
    }
  }

  lemma {:induction false} BracketsBegin(log: seq<Event>, u: Unit, id: nat, s: nat, n: nat, k: nat)
    requires Brackets(log, u, id, s, n, k)
    ensures s <= n
  {}

  lemma {:induction false} BracketsFewer(log: seq<Event>, u: Unit, id: nat, s: nat, n: nat, k: nat, k': nat)
    requires Brackets(log, u, id, s, n, k) && k' <= k && n <= |log|
    ensures Brackets(log, u, id, s, n, k')
    decreases k
  {
    if k' < k {
      var a: nat, r: nat :| s <= a < r < n && log[a].Audited? && ReadAt(log, u, id, r)
          && Brackets(log, u, id, s, a, k - 1);
      BracketsExtend(log, u, id, s, a, n, k - 1);
      BracketsFewer(log, u, id, s, n, k - 1, k');
    }
  }

  /** One process of u was read before and after two audits, and after the audit at n. */
  ghost predicate SameProcessThroughout(log: seq<Event>, u: Unit, n: nat) {
    exists id: nat, s: nat, r: nat ::
      && OneProcess(log, u, id, s, |log|)
      && Brackets(log, u, id, s, |log|, 2)
      && n < r && ReadAt(log, u, id, r)
  }

  /** What a successful commit means, on the events: the last audit shows the exact target, nothing was
      mutated after it, every start of the daemon was gated, and each active trusted service is one
      process that was read before and after two audits, the final one among them. */
  ghost predicate SoundCommit(g: Goal, log: seq<Event>, a: HostAudit, n: nat) {
    && MatchesTarget(g.target, a)
    && StillHolds(log, n, |log|) && log[n] == Audited(a)
    && (forall i :: n < i < |log| ==> !log[i].Audited?)
    && (forall u: Unit :: IsTrusted(u) && g.target.Of(u).active == Some(true) ==> SameProcessThroughout(log, u, n))
    && (forall i: nat :: i < |log| && StartsDocker(log[i]) ==> GatedBetween(g, log, i, |log|))
    && OnlySocketAfterwards(log)
  }

  lemma BoundThroughout(g: Goal, log: seq<Event>, ms: seq<Monitor>, u: Unit, n: nat)
    requires IsRun(g, log, ms) && n < |log| && log[n].Audited?
    requires ms[|log|].processes.Of(u).Bound? && ms[|log|].processes.Of(u).spans >= 2 && ms[|log|].view.late.Of(u)
    ensures SameProcessThroughout(log, u, n)
  {
    var s := BoundMeans(g, log, ms, |log|, u);
    var p := ms[|log|].processes.Of(u);
    BracketsFewer(log, u, p.id, s, |log|, p.spans, 2);
    var r: nat :| r < |log| && ReadAt(log, u, p.id, r) && forall i :: r < i < |log| ==> !log[i].Audited?;
    assert n < r;
  }

  lemma CommittedIsSound(g: Goal, log: seq<Event>, ms: seq<Monitor>, a: HostAudit) returns (n: nat)
    requires IsRun(g, log, ms) && Committed(g, ms[|log|], a)
    ensures SoundCommit(g, log, a, n)
  {
    n := LastAuditAt(g, log, ms, |log|);
    OnlySocketAfterwardsHolds(g, log, ms);
    forall u: Unit | IsTrusted(u) && g.target.Of(u).active == Some(true)
      ensures SameProcessThroughout(log, u, n)
    {
      BoundThroughout(g, log, ms, u, n);
    }
    forall i: nat | i < |log| && StartsDocker(log[i])
      ensures GatedBetween(g, log, i, |log|)
    {
      GatedSince(g, log, ms, i, |log|);
    }
  }

  // ----- containment

  /** All four launchers were audited inactive and masked, nothing was mutated since, and the node was idle. */
  ghost predicate ProvedIdle(log: seq<Event>) {
    exists n: nat, k: nat ::
      && StillHolds(log, n, |log|) && AllMasked(log[n].audit.launchers)
      && n < k < |log| && log[k] == Probed(Some([]))
  }

  /** The unverified quarantine was reported and nothing was released afterwards. */
  ghost predicate ReportedUnverified(log: seq<Event>) {
    exists k: nat ::
      k < |log| && log[k] == ErrorFound(QuarantineUnverified) && forall i :: k < i < |log| ==> !Releases(log[i])
  }

  ghost predicate EmergencyHolds(log: seq<Event>, u: Unit) {
    exists k: nat :: k < |log| && log[k] == EmergencyMasked(u) && forall i :: k < i < |log| ==> !Releases(log[i])
  }

  ghost predicate EmergencyMaskedAll(log: seq<Event>) {
    forall u: Unit :: EmergencyHolds(log, u)
  }

  lemma {:induction false} AlarmAt(g: Goal, log: seq<Event>, ms: seq<Monitor>, n: nat) returns (k: nat)
    requires IsRun(g, log, ms) && n <= |log| && ms[n].progress.alarm
    ensures k < n && log[k] == ErrorFound(QuarantineUnverified) && forall i :: k < i < n ==> !Releases(log[i])
    decreases n
  {
    if log[n - 1] == ErrorFound(QuarantineUnverified) {
      k := n - 1;
    } else {
      k := AlarmAt(g, log, ms, n - 1);
    }
  }

  lemma {:induction false} EmergencyAt(g: Goal, log: seq<Event>, ms: seq<Monitor>, n: nat, u: Unit) returns (k: nat)
    requires IsRun(g, log, ms) && n <= |log| && u in ms[n].progress.emergency
    ensures k < n && log[k] == EmergencyMasked(u) && forall i :: k < i < n ==> !Releases(log[i])
    decreases n
  {
    if log[n - 1] == EmergencyMasked(u) {
      k := n - 1;
    } else {
      k := EmergencyAt(g, log, ms, n - 1, u);
    }
  }

  lemma {:induction false} IdleAt(g: Goal, log: seq<Event>, ms: seq<Monitor>, n: nat) returns (k: nat)
    requires IsRun(g, log, ms) && n <= |log| && ms[n].view.idle
    ensures k < n && log[k] == Probed(Some([])) && forall i :: k < i < n ==> !log[i].Audited?
    decreases n
  {
    if log[n - 1] == Probed(Some([])) {
      k := n - 1;
    } else {
      k := IdleAt(g, log, ms, n - 1);
    }
  }

  lemma ContainedIsFenced(g: Goal, log: seq<Event>, ms: seq<Monitor>)
    requires IsRun(g, log, ms) && Contained(ms[|log|])
    ensures ProvedIdle(log) || ReportedUnverified(log)
  {
    if ms[|log|].progress.alarm {
      var k := AlarmAt(g, log, ms, |log|);
    } else {
      var n := LastAuditAt(g, log, ms, |log|);
      var k := IdleAt(g, log, ms, |log|);
      assert n < k;
    }
  }

  lemma EmergencyIsTotal(g: Goal, log: seq<Event>, ms: seq<Monitor>)
    requires IsRun(g, log, ms) && forall u: Unit :: u in ms[|log|].progress.emergency
    ensures EmergencyMaskedAll(log)
  {
    forall u: Unit
      ensures EmergencyHolds(log, u)
    {
      var k := EmergencyAt(g, log, ms, |log|, u);
    }
  }
}

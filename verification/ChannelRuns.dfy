/** Every run of channel reconciles and spec edits, with stale reads and lost status writes. */
module ChannelRuns {
  import opened Wrappers
  import opened Conditions
  import opened Objects
  import opened ApiServer
  import opened ChannelReconcile

  datatype Action =
    | EditSpec(config: Config)
    | Reconciled(base: nat, answers: Answers, fate: Fate)

  predicate Enabled(versions: seq<Channel>, a: Action) {
    versions != [] && (a.Reconciled? ==> a.base < |versions|)
  }

  /** A spec edit raises the generation; a reconcile stores its status over the version it read. */
  function Do(versions: seq<Channel>, a: Action): seq<Channel>
    requires Enabled(versions, a)
  {
    match a
    case EditSpec(config) =>
      var last := versions[|versions| - 1];
      versions + [last.(generation := last.generation + 1, config := config)]
    case Reconciled(base, answers, fate) =>
      match Reconcile(versions[base], answers)
      case NilDeref => versions
      case Done(ch, _, _, _) => Patched(versions, base, ch, true, fate)
  }

  predicate Initial(versions: seq<Channel>) {
    |versions| == 1 && versions[0] == Channel(1, versions[0].config, map[], None, 0, 0)
  }

  predicate Run(ws: seq<seq<Channel>>, actions: seq<Action>) {
    && |ws| == |actions| + 1 && Initial(ws[0])
    && forall i :: 0 <= i < |actions| ==> Enabled(ws[i], actions[i]) && ws[i + 1] == Do(ws[i], actions[i])
  }

  // ---- What every stored version keeps ----

  predicate VersionOk(ch: Channel) {
    && 0 <= ch.failed <= MAX_CONSECUTIVE_FAILURES + 1
    && 0 <= ch.syncedGeneration <= ch.generation && 1 <= ch.generation
    && (ch.syncedGeneration >= 1 ==> ch.lastSynced.Some?)
  }

  /** A step that crashes nowhere and leaves a sound version of the same spec. */
  predicate StepOk(ch: Channel, step: Step) {
    step != NilDeref && VersionOk(step.ch) && step.ch.generation == ch.generation && step.ch.config == ch.config
  }

  lemma CreationOk(ch: Channel, a: Answers, reset: bool)
    requires 0 <= ch.failed <= MAX_CONSECUTIVE_FAILURES
    requires 0 <= ch.syncedGeneration <= ch.generation && 1 <= ch.generation
    ensures StepOk(ch, CreatePod(ch, a, reset))
  {
  }

  lemma PodOk(ch: Channel, phase: Phase, a: Answers)
    requires VersionOk(ch) && ch.failed <= MAX_CONSECUTIVE_FAILURES
    ensures StepOk(ch, HandlePod(ch, phase, a))
  {
  }

  lemma ReconcileKeeps(ch: Channel, a: Answers)
    requires VersionOk(ch)
    ensures StepOk(ch, Reconcile(ch, a))
  {
    if ValidConfig(ch.config) && ch.config.enabled {
      CreationOk(ch.(failed := 0, syncedGeneration := ch.generation), a, true);
      if ch.failed <= MAX_CONSECUTIVE_FAILURES {
        CreationOk(ch, a, false);
        if a.pod.PodFound? {
          PodOk(ch, a.pod.phase, a);
        }
      }
    }
  }

  lemma {:induction false} Reachable(ws: seq<seq<Channel>>, actions: seq<Action>, i: nat)
    requires Run(ws, actions) && i < |ws|
    ensures ws[i] != [] && forall ch <- ws[i] :: VersionOk(ch)
  {
    if i > 0 {
      Reachable(ws, actions, i - 1);
      var before, a := ws[i - 1], actions[i - 1];
      if a.Reconciled? {
        assert before[a.base] in before;
        ReconcileKeeps(before[a.base], a.answers);
      } else {
        assert before[|before| - 1] in before;
      }
    }
  }

  /** The failure counter never passes the limit by more than one, in any stored version of any run. */
  lemma BoundedFailures(ws: seq<seq<Channel>>, actions: seq<Action>, i: nat, k: nat)
    requires Run(ws, actions) && i < |ws| && k < |ws[i]|
    ensures 0 <= ws[i][k].failed <= MAX_CONSECUTIVE_FAILURES + 1
  {
    Reachable(ws, actions, i);
    assert ws[i][k] in ws[i];
  }

  /**
   * The last-sync time is never nil where it is dereferenced: over all runs, including disabled
   * and invalid specs, a version synced at its own generation has it, and no reconcile of any
   * readable version dereferences a nil one.
   */
  lemma LastSyncedNeverNil(ws: seq<seq<Channel>>, actions: seq<Action>, i: nat, k: nat, a: Answers)
    requires Run(ws, actions) && i < |ws| && k < |ws[i]|
    ensures ws[i][k].syncedGeneration == ws[i][k].generation ==> ws[i][k].lastSynced.Some?
    ensures Reconcile(ws[i][k], a) != NilDeref
  {
    Reachable(ws, actions, i);
    assert ws[i][k] in ws[i];
    ReconcileKeeps(ws[i][k], a);
  }

  // ---- Bounded retries ----

  /** Statuses are stored and every syncer pod carries the operator's own image. */
  predicate Steady(versions: seq<Channel>, a: Action) {
    a.Reconciled? ==>
      a.fate != Lost && a.base == |versions| - 1 && (a.answers.pod.PodFound? ==> a.answers.pod.ownImage)
  }

  predicate SteadyRun(ws: seq<seq<Channel>>, actions: seq<Action>) {
    Run(ws, actions) && forall i :: 0 <= i < |actions| ==> Steady(ws[i], actions[i])
  }

  function StepAt(versions: seq<Channel>, a: Action): Step
    requires Enabled(versions, a) && a.Reconciled?
  {
    Reconcile(versions[a.base], a.answers)
  }

  predicate Resets(versions: seq<Channel>, a: Action)
    requires Enabled(versions, a)
  {
    a.Reconciled? && StepAt(versions, a).Done? && StepAt(versions, a).reset
  }

  predicate Tries(versions: seq<Channel>, a: Action)
    requires Enabled(versions, a)
  {
    a.Reconciled? && StepAt(versions, a).Done? && StepAt(versions, a).tried
  }

  /** Pod creations tried in the steps from `i` up to `j`. */
  function TriesBetween(ws: seq<seq<Channel>>, actions: seq<Action>, i: nat, j: nat): nat
    requires Run(ws, actions) && i <= j < |ws|
  {
    if i == j then 0
    else TriesBetween(ws, actions, i, j - 1) + if Tries(ws[j - 1], actions[j - 1]) then 1 else 0
  }

  /** The tries since the last reset once an action is done, that reset's own step included. */
  function AfterTries(versions: seq<Channel>, a: Action, tries: nat): nat
    requires Enabled(versions, a)
  {
    (if Resets(versions, a) then 0 else tries) + if Tries(versions, a) then 1 else 0
  }

  function TriesSinceReset(ws: seq<seq<Channel>>, actions: seq<Action>, j: nat): nat
    requires Run(ws, actions) && j < |ws|
  {
    if j == 0 then 0 else AfterTries(ws[j - 1], actions[j - 1], TriesSinceReset(ws, actions, j - 1))
  }

  /**
   * The tries since the last reset are paid for by failures, except for one pod that is
   * still synchronizing; a version synced at its own generation is valid and enabled.
   */
  predicate Paid(ch: Channel, tries: nat) {
    && tries <= MAX_CONSECUTIVE_FAILURES + 1
    && (ch.syncedGeneration == ch.generation ==>
          && ValidConfig(ch.config) && ch.config.enabled && Ready in ch.conds
          && tries <= ch.failed + if ch.conds[Ready].reason == Synchronizing then 1 else 0)
  }

  lemma StepPaid(ch: Channel, a: Answers, tries: nat)
    requires VersionOk(ch) && Paid(ch, tries)
    requires a.pod.PodFound? ==> a.pod.ownImage
    ensures
      var step := Reconcile(ch, a);
      && step != NilDeref
      && Paid(step.ch, (if step.reset then 0 else tries) + if step.tried then 1 else 0)
  {
  }

  lemma ActionPaid(versions: seq<Channel>, a: Action, tries: nat)
    requires Enabled(versions, a) && Steady(versions, a)
    requires VersionOk(versions[|versions| - 1]) && Paid(versions[|versions| - 1], tries)
    ensures
      var after := Do(versions, a);
      after != [] && Paid(after[|after| - 1], AfterTries(versions, a, tries))
  {
    if a.Reconciled? {
      StepPaid(versions[a.base], a.answers, tries);
    }
  }

  lemma {:induction false} RunPaid(ws: seq<seq<Channel>>, actions: seq<Action>, j: nat)
    requires SteadyRun(ws, actions) && j < |ws|
    ensures ws[j] != [] && Paid(ws[j][|ws[j]| - 1], TriesSinceReset(ws, actions, j))
  {
    if j > 0 {
      RunPaid(ws, actions, j - 1);
      Reachable(ws, actions, j - 1);
      assert ws[j - 1][|ws[j - 1]| - 1] in ws[j - 1];
      ActionPaid(ws[j - 1], actions[j - 1], TriesSinceReset(ws, actions, j - 1));
    }
  }

  lemma {:induction false} WindowTries(ws: seq<seq<Channel>>, actions: seq<Action>, i: nat, j: nat)
    requires Run(ws, actions) && i <= j < |ws|
    requires forall k :: i < k < j ==> !Resets(ws[k], actions[k])
    ensures TriesBetween(ws, actions, i, j) <= TriesSinceReset(ws, actions, j)
  {
    if i < j {
      WindowTries(ws, actions, i, j - 1);
    }
  }

  /**
   * Bounded retries: when statuses are stored and the operator image is fixed, at most
   * MAX_CONSECUTIVE_FAILURES + 1 pod creations are tried from one reset of the counter to the next.
   */
  lemma BoundedRetries(ws: seq<seq<Channel>>, actions: seq<Action>, i: nat, j: nat)
    requires SteadyRun(ws, actions) && i <= j < |ws|
    requires forall k :: i < k < j ==> !Resets(ws[k], actions[k])
    ensures TriesBetween(ws, actions, i, j) <= MAX_CONSECUTIVE_FAILURES + 1
  {
    WindowTries(ws, actions, i, j);
    RunPaid(ws, actions, j);
  }

  // ---- The bound is reached ----

  /** A channel whose syncer pod was refused `n` times in a row. */
  function Refused(n: nat): Channel {
    var config := Config(true, Some(3600), true, true);
    if n == 0 then Channel(1, config, map[], None, 0, 0)
    else Channel(1, config, map[Ready := Condition(CondFalse, FailedToCreatePod, 0)], Some(0), n, 1)
  }

  function RefusedVersions(n: nat): seq<Channel> {
    seq(n + 1, i requires 0 <= i <= n => Refused(i))
  }

  function RefusedRetry(n: nat): Action {
    Reconciled(n, Answers(0, 0, true, true, false, PodMissing, false, false), Delivered)
  }

  lemma RefusedStep(n: nat)
    requires n <= MAX_CONSECUTIVE_FAILURES
    ensures Reconcile(Refused(n), RefusedRetry(n).answers) == Done(Refused(n + 1), true, n == 0, true)
    ensures Do(RefusedVersions(n), RefusedRetry(n)) == RefusedVersions(n + 1)
  {
    var a := RefusedRetry(n).answers;
    if n > 0 {
      assert Reconcile(Refused(n), a) == CreatePod(Refused(n), a, false);
    } else {
      assert Reconcile(Refused(n), a) == CreatePod(Refused(n).(syncedGeneration := 1), a, true);
    }
    assert RefusedVersions(n + 1) == RefusedVersions(n) + [Refused(n + 1)];
  }

  lemma {:induction false} RefusedTries(ws: seq<seq<Channel>>, actions: seq<Action>, j: nat)
    requires Run(ws, actions) && j < |ws| <= MAX_CONSECUTIVE_FAILURES + 2
    requires forall i: nat :: i < |ws| ==> ws[i] == RefusedVersions(i)
    requires forall i: nat :: i < |actions| ==> actions[i] == RefusedRetry(i)
    ensures TriesBetween(ws, actions, 0, j) == j
  {
    if j > 0 {
      RefusedTries(ws, actions, j - 1);
      RefusedStep(j - 1);
      assert ws[j - 1] == RefusedVersions(j - 1);
    }
  }

  /** Both bounds are exact: some run tries that often without a reset in between, and its last counter is the limit. */
  lemma BoundsReached() returns (ws: seq<seq<Channel>>, actions: seq<Action>)
    ensures SteadyRun(ws, actions) && |ws| == MAX_CONSECUTIVE_FAILURES + 2
    ensures forall k :: 0 < k < |actions| ==> !Resets(ws[k], actions[k])
    ensures TriesBetween(ws, actions, 0, |ws| - 1) == MAX_CONSECUTIVE_FAILURES + 1
    ensures var last := ws[|ws| - 1]; last != [] && last[|last| - 1].failed == MAX_CONSECUTIVE_FAILURES + 1
  {
    ws := seq(MAX_CONSECUTIVE_FAILURES + 2, i requires 0 <= i < MAX_CONSECUTIVE_FAILURES + 2 => RefusedVersions(i));
    actions := seq(MAX_CONSECUTIVE_FAILURES + 1, i requires 0 <= i < MAX_CONSECUTIVE_FAILURES + 1 => RefusedRetry(i));
    forall i | 0 <= i < |actions|
      ensures Enabled(ws[i], actions[i]) && ws[i + 1] == Do(ws[i], actions[i]) && Steady(ws[i], actions[i])
      ensures i > 0 ==> !Resets(ws[i], actions[i])
    {
      RefusedStep(i);
    }
    RefusedTries(ws, actions, |ws| - 1);
  }
}

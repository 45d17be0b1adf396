/** What a ManagedOSVersionChannel reconcile decides, and exactly when. */
module ChannelDecisions {
  import opened Wrappers
  import opened Conditions
  import opened ChannelReconcile

  predicate Active(ch: Channel) {
    ch.config.typed && ch.config.interval.Some? && ch.config.supported && ch.config.enabled
  }

  /** A sync starts over: it never ran, the spec was edited since, or its interval has passed. */
  predicate Due(ch: Channel, now: int) {
    || Ready !in ch.conds || ch.syncedGeneration != ch.generation
    || (ch.lastSynced.Some? && ch.config.interval.Some? && now > ch.lastSynced.value + ch.config.interval.value)
  }

  /** The sync of this generation and interval is done, or has failed more than four times in a row. */
  predicate Settled(ch: Channel, now: int) {
    !Due(ch, now) && (ch.conds[Ready].status == CondTrue || ch.failed > 4)
  }

  /** A sync is under way: it is neither due nor settled. */
  predicate UnderWay(ch: Channel, now: int) {
    Active(ch) && !Due(ch, now) && ch.conds[Ready].status != CondTrue && ch.failed <= 4
  }

  /** The syncer pod is the operator's own, has succeeded, its logs were read and every version was stored. */
  predicate SyncedNow(a: Answers) {
    a.pod == PodFound(true, PodSucceeded) && a.logsOk && a.syncOk
  }

  predicate PodAtWork(a: Answers) {
    a.pod == PodFound(true, PodPending) || a.pod == PodFound(true, PodRunning)
  }

  /** No pod of this operator runs though none is waited for: another is created. */
  predicate PodWanted(ch: Channel, a: Answers)
    requires Ready in ch.conds
  {
    (a.pod.PodFound? && !a.pod.ownImage) || (a.pod.PodMissing? && ch.conds[Ready].reason != Synchronizing)
  }

  /** The spec, the generation it was synced for and all other conditions are not touched. */
  predicate OnlyProgress(before: Channel, after: Channel) {
    && after == before.(conds := after.conds, lastSynced := after.lastSynced, failed := after.failed)
    && (forall t :: t != Ready ==> (t in before.conds <==> t in after.conds))
    && (forall t :: t != Ready && t in before.conds ==> after.conds[t] == before.conds[t])
  }

  /**
   * A sync under way ends as synchronized if and only if the operator's own pod has succeeded, its logs were read
   * and the sync itself reported no error. Exactly then the failure counter goes back to zero. It stays while the
   * pod is at work or a new one is created, and grows by one on every other outcome, all of which leave the
   * channel not ready. The reconcile is an error exactly when a failure is counted.
   */
  lemma SyncDecides(ch: Channel, a: Answers)
    requires UnderWay(ch, a.now)
    ensures
      var step := Reconcile(ch, a);
      && step != NilDeref && OnlyProgress(ch, step.ch) && Ready in step.ch.conds
      && (step.ch.conds[Ready].status == CondTrue <==> SyncedNow(a))
      && (step.ch.conds[Ready].status == CondTrue ==> step.ch.conds[Ready].reason == Synchronized)
      && (step.reset <==> SyncedNow(a))
      && step.ch.failed == (if SyncedNow(a) then 0
                            else if PodAtWork(a) || (PodWanted(ch, a) && a.createOk) then ch.failed
                            else ch.failed + 1)
      && (step.err <==> !SyncedNow(a) && !PodAtWork(a) && !(PodWanted(ch, a) && a.createOk))
  {
  }

  /**
   * While a sync is under way a pod is created exactly when one is wanted, the last-sync time moves unless the pod
   * is at work or cannot be found or read, and the reason tells the outcomes apart.
   */
  lemma PodDecides(ch: Channel, a: Answers)
    requires UnderWay(ch, a.now)
    ensures
      var step := Reconcile(ch, a);
      && step != NilDeref && (step.tried <==> PodWanted(ch, a))
      && step.ch.lastSynced == (if PodWanted(ch, a) || (a.pod.PodFound? && !PodAtWork(a)) then Some(a.later)
                                else ch.lastSynced)
      && Ready in step.ch.conds
      && step.ch.conds[Ready].reason == (if SyncedNow(a) then Synchronized
                                         else if PodAtWork(a) || (PodWanted(ch, a) && a.createOk) then Synchronizing
                                         else if PodWanted(ch, a) then FailedToCreatePod
                                         else FailedToSync)
  {
  }

  /** A sync that is due starts with no failures, for the current generation, by trying to create a pod. */
  lemma DueDecides(ch: Channel, a: Answers)
    requires Active(ch) && Due(ch, a.now)
    ensures
      var step := Reconcile(ch, a);
      && step != NilDeref && step.reset && step.tried && (step.err <==> !a.createOk)
      && step.ch.syncedGeneration == ch.generation && step.ch.lastSynced == Some(a.later)
      && step.ch.failed == (if a.createOk then 0 else 1)
      && OnlyProgress(ch.(syncedGeneration := ch.generation), step.ch)
      && Ready in step.ch.conds && step.ch.conds[Ready].status == CondFalse
      && step.ch.conds[Ready].reason == (if a.createOk then Synchronizing else FailedToCreatePod)
  {
  }

  /** A settled sync stays as it is until it is due again; only a missing last-sync time makes it crash. */
  lemma SettledStays(ch: Channel, a: Answers)
    requires Active(ch) && Settled(ch, a.now)
    ensures Reconcile(ch, a) == if ch.lastSynced.Some? then Done(ch, false, false, false) else NilDeref
  {
  }

  /** An invalid spec is reported and nothing else; a disabled channel is ready once all of it has been put away. */
  lemma InactiveDecides(ch: Channel, a: Answers)
    requires !Active(ch)
    ensures
      var step := Reconcile(ch, a);
      && step != NilDeref && !step.reset && !step.tried && step.ch == ch.(conds := step.ch.conds)
      && OnlyProgress(ch, step.ch)
      && if ValidConfig(ch.config) && !(a.deprecated && a.podRemoved) then step.err && step.ch == ch
         else
           && !step.err && Ready in step.ch.conds
           && (step.ch.conds[Ready].status == CondTrue <==> ValidConfig(ch.config))
           && step.ch.conds[Ready].reason == (if ValidConfig(ch.config) then ChannelDisabled else InvalidConfiguration)
  {
  }

  /** Becoming ready takes a sync that succeeded in every part, or a channel switched off. */
  lemma BecomesReady(ch: Channel, a: Answers)
    requires Reconcile(ch, a) != NilDeref && !IsTrue(ch.conds, Ready)
    ensures
      IsTrue(Reconcile(ch, a).ch.conds, Ready) <==>
        || (UnderWay(ch, a.now) && SyncedNow(a))
        || (ValidConfig(ch.config) && !ch.config.enabled && a.deprecated && a.podRemoved)
  {
    if UnderWay(ch, a.now) {
      SyncDecides(ch, a);
    } else if Active(ch) && Due(ch, a.now) {
      DueDecides(ch, a);
    } else if !Active(ch) {
      InactiveDecides(ch, a);
    }
  }
}

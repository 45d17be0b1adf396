/** One ManagedOSVersionChannel reconcile: validation, intervals, bounded retries and the syncer pod. */
module ChannelReconcile {
  import opened Wrappers
  import opened Conditions

  const MAX_CONSECUTIVE_FAILURES: int := 4

  /** What the reconcile reads of the spec; the interval is absent when it does not parse. */
  datatype Config = Config(typed: bool, interval: Option<int>, supported: bool, enabled: bool)

  datatype Channel = Channel(
    generation: int,
    config: Config,
    conds: ConditionMap,
    lastSynced: Option<int>,
    failed: int,
    syncedGeneration: int)

  datatype Phase = PodPending | PodRunning | PodSucceeded | PodFailed | PodUnknown
  datatype PodRead = PodMissing | PodError | PodFound(ownImage: bool, phase: Phase)

  /** Everything a reconcile learns from outside. */
  datatype Answers = Answers(
    now: int,
    later: int,
    deprecated: bool,
    podRemoved: bool,
    createOk: bool,
    pod: PodRead,
    logsOk: bool,
    syncOk: bool)

  /** `reset`: the failure counter was set to zero; `tried`: a pod creation was tried. */
  datatype Step = Done(ch: Channel, err: bool, reset: bool, tried: bool) | NilDeref

  function SetReady(ch: Channel, status: Status, reason: Reason, now: int): Channel {
    ch.(conds := Set(ch.conds, Ready, status, reason, now))
  }

  predicate ValidConfig(c: Config) {
    c.typed && c.interval.Some? && c.supported
  }

  function CreatePod(ch: Channel, a: Answers, reset: bool): Step {
    var started := ch.(lastSynced := Some(a.later));
    if a.createOk then Done(SetReady(started, CondFalse, Synchronizing, a.later), false, reset, true)
    else Done(SetReady(started.(failed := ch.failed + 1), CondFalse, FailedToCreatePod, a.later), true, reset, true)
  }

  function FailSync(ch: Channel, a: Answers): Step {
    Done(SetReady(ch.(lastSynced := Some(a.later), failed := ch.failed + 1), CondFalse, FailedToSync, a.later),
         true, false, false)
  }

  function HandlePod(ch: Channel, phase: Phase, a: Answers): Step {
    match phase
    case PodPending => Done(SetReady(ch, CondFalse, Synchronizing, a.later), false, false, false)
    case PodRunning => Done(SetReady(ch, CondFalse, Synchronizing, a.later), false, false, false)
    case PodSucceeded =>
      if a.logsOk && a.syncOk
      then
        var synced := ch.(failed := 0, lastSynced := Some(a.later));
        Done(SetReady(synced, CondTrue, Synchronized, a.later), false, true, false)
      else FailSync(ch, a)
    case _ => FailSync(ch, a)
  }

  predicate IntervalReached(ch: Channel, now: int) {
    ch.lastSynced.Some? && ch.config.interval.Some? && ch.lastSynced.value + ch.config.interval.value < now
  }

  function ReconcileEnabled(ch: Channel, a: Answers): Step {
    if Ready !in ch.conds || ch.syncedGeneration != ch.generation || IntervalReached(ch, a.now) then
      CreatePod(ch.(failed := 0, syncedGeneration := ch.generation), a, true)
    else if ch.conds[Ready].status == CondTrue || ch.failed > MAX_CONSECUTIVE_FAILURES then
      if ch.lastSynced.None? then NilDeref else Done(ch, false, false, false)
    else
      match a.pod
      case PodFound(ownImage, phase) => if ownImage then HandlePod(ch, phase, a) else CreatePod(ch, a, false)
      case missing =>
        if missing.PodMissing? && ch.conds[Ready].reason != Synchronizing then CreatePod(ch, a, false)
        else Done(SetReady(ch.(failed := ch.failed + 1), CondFalse, FailedToSync, a.later), true, false, false)
  }

  function Reconcile(ch: Channel, a: Answers): Step {
    if !ValidConfig(ch.config) then
      Done(SetReady(ch, CondFalse, InvalidConfiguration, a.later), false, false, false)
    else if ch.config.enabled then ReconcileEnabled(ch, a)
    else if !a.deprecated || !a.podRemoved then Done(ch, true, false, false)
    else Done(SetReady(ch, CondTrue, ChannelDisabled, a.later), false, false, false)
  }

  /** The channel as one reconcile holds it in memory; the branches update it in place. */
  class Reconciler {
    var ch: Channel
    var reset: bool
    var tried: bool

    constructor (stored: Channel)
      ensures ch == stored && !reset && !tried
    {
      ch, reset, tried := stored, false, false;
    }

    ghost function After(err: bool): Step
      reads this
    {
      Done(ch, err, reset, tried)
    }

    method SetCondition(status: Status, reason: Reason, now: int)
      modifies `ch
      ensures ch == SetReady(old(ch), status, reason, now)
    {
      ch := ch.(conds := Set(ch.conds, Ready, status, reason, now));
    }

    method CreateSyncerPod(a: Answers) returns (err: bool)
      modifies `ch, `tried
      ensures After(err) == CreatePod(old(ch), a, reset)
    {
      ch := ch.(lastSynced := Some(a.later));
      tried := true;
      if !a.createOk {
        SetCondition(CondFalse, FailedToCreatePod, a.later);
        ch := ch.(failed := ch.failed + 1);
        return true;
      }
      SetCondition(CondFalse, Synchronizing, a.later);
      return false;
    }

    method HandleFailedSync(a: Answers) returns (err: bool)
      requires !reset && !tried
      modifies `ch
      ensures After(err) == FailSync(old(ch), a)
    {
      ch := ch.(lastSynced := Some(a.later));
      SetCondition(CondFalse, FailedToSync, a.later);
      ch := ch.(failed := ch.failed + 1);
      return true;
    }

    method HandleSyncPod(phase: Phase, a: Answers) returns (err: bool)
      requires !reset && !tried
      modifies `ch, `reset
      ensures After(err) == HandlePod(old(ch), phase, a)
    {
      match phase {
        case PodPending =>
          SetCondition(CondFalse, Synchronizing, a.later);
          return false;
        case PodRunning =>
          SetCondition(CondFalse, Synchronizing, a.later);
          return false;
        case PodSucceeded =>
          if !a.logsOk || !a.syncOk {
            err := HandleFailedSync(a);
            return;
          }
          SetCondition(CondTrue, Synchronized, a.later);
          ch := ch.(failed := 0, lastSynced := Some(a.later));
          reset := true;
          return false;
        case _ =>
          err := HandleFailedSync(a);
      }
    }

    /** The reconcile of a version on which no nil last-sync time is dereferenced. */
    method Run(a: Answers) returns (err: bool)
      requires !reset && !tried && Reconcile(ch, a) != NilDeref
      modifies this
      ensures After(err) == Reconcile(old(ch), a)
    {
      if !ch.config.typed || ch.config.interval.None? || !ch.config.supported {
        SetCondition(CondFalse, InvalidConfiguration, a.later);
        return false;
      }
      if !ch.config.enabled {
        if !a.deprecated || !a.podRemoved {
          return true;
        }
        SetCondition(CondTrue, ChannelDisabled, a.later);
        return false;
      }
      var reached := ch.lastSynced.Some? && ch.lastSynced.value + ch.config.interval.value < a.now;
      if Ready !in ch.conds || ch.syncedGeneration != ch.generation || reached {
        ch := ch.(failed := 0, syncedGeneration := ch.generation);
        reset := true;
        err := CreateSyncerPod(a);
        return;
      }
      if ch.conds[Ready].status == CondTrue {
        return false;
      }
      if ch.failed > MAX_CONSECUTIVE_FAILURES {
        return false;
      }
      if a.pod.PodFound? {
        if !a.pod.ownImage {
          err := CreateSyncerPod(a);
          return;
        }
        err := HandleSyncPod(a.pod.phase, a);
        return;
      }
      if a.pod.PodMissing? && ch.conds[Ready].reason != Synchronizing {
        err := CreateSyncerPod(a);
        return;
      }
      SetCondition(CondFalse, FailedToSync, a.later);
      ch := ch.(failed := ch.failed + 1);
      return true;
    }
  }
}

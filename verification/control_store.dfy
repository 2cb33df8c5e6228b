/** The stored control documents and the tools that change them, called from several threads at
    once (toinflux/mcp_controls.py). */
module ControlStores {
  import opened Numbers
  import opened Ownership

  // ---------- the store ----------

  datatype Stored = Readable(document: Document) | Unreadable

  type Store = map<string, Stored>

  /** The documents that can be read; one that cannot is skipped, not guessed at. */
  function Readables(store: Store): Documents {
    map name | name in store && store[name].Readable? :: store[name].document
  }

  /** No two enabled controls command what may be one actuator. */
  ghost predicate Exclusive(store: Store) {
    forall a, b :: a in Readables(store) && b in Readables(store) && a != b
      && ControlIsEnabled(store[a].document) && ControlIsEnabled(store[b].document)
      ==> !Clash(Owned(store[a].document.devices), Owned(store[b].document.devices))
  }

  ghost predicate Free(store: Store, name: string, d: Document) {
    !OwnedElsewhere(Owned(d.devices), Readables(store), name)
  }

  /** This is the enabled control that commands one of the document's actuators, and the first by name
      of those that do. */
  ghost predicate IsInTheWay(store: Store, name: string, d: Document, owner: string) {
    && owner in Readables(store) && Commands(Owned(d.devices), Readables(store), name, owner)
    && forall other :: other in Readables(store) && Commands(Owned(d.devices), Readables(store), name, other)
         ==> Precedes(owner, other)
  }

  /** What a save stores: the document it was given, disabled where it was to be enabled and an
      enabled control is in the way. */
  ghost function Saved(store: Store, name: string, d: Document): Document {
    if ControlIsEnabled(d) && !Free(store, name, d) then d.(enabled := Is(false)) else d
  }

  function Put(store: Store, name: string, d: Document): Store {
    store[name := Readable(d)]
  }

  lemma StoringWhatIsFreeStaysExclusive(store: Store, name: string, d: Document)
    requires Exclusive(store) && (ControlIsEnabled(d) ==> Free(store, name, d))
    ensures Exclusive(Put(store, name, d))
  {
    var after := Put(store, name, d);
    forall a, b | a in Readables(after) && b in Readables(after) && a != b
      && ControlIsEnabled(after[a].document) && ControlIsEnabled(after[b].document)
      ensures !Clash(Owned(after[a].document.devices), Owned(after[b].document.devices))
    {
      ClashBothWays(Owned(after[a].document.devices), Owned(after[b].document.devices));
      if a == name {
        assert !Commands(Owned(d.devices), Readables(store), name, b);
      } else if b == name {
        assert !Commands(Owned(d.devices), Readables(store), name, a);
      }
    }
  }

  /** Whatever was asked for, what a save stores keeps the store exclusive. */
  lemma SavingStaysExclusive(store: Store, name: string, d: Document)
    requires Exclusive(store)
    ensures Exclusive(Put(store, name, Saved(store, name, d)))
  {
    StoringWhatIsFreeStaysExclusive(store, name, Saved(store, name, d));
  }

  // ---------- the tools ----------

  /** There is a document to change, its flag is not that already, and nobody is in the way. */
  ghost predicate MayFlip(store: Store, name: string, on: bool) {
    && name in Readables(store) && ControlIsEnabled(Readables(store)[name]) != on
    && (on ==> Free(store, name, Readables(store)[name]))
  }

  /** What a set-enabled has validated and writes: the stored devices and all the rest of the document,
      under a flag that is a boolean. */
  function Flagged(store: Store, name: string, on: bool): Document
    requires name in Readables(store)
  {
    Document(Is(on), Readables(store)[name].devices, Readables(store)[name].rest)
  }

  /** Only `enabled` of one stored document differs, and it says this. */
  ghost predicate OnlyTheFlag(before: Store, after: Store, name: string, on: bool) {
    && name in Readables(before) && name in Readables(after)
    && ControlIsEnabled(Readables(after)[name]) == on
    && Readables(after)[name].devices == Readables(before)[name].devices
    && Readables(after)[name].rest == Readables(before)[name].rest
    && after.Keys == before.Keys
    && forall other :: other in before && other != name ==> after[other] == before[other]
  }

  /** This document was stored as it was given, or with nothing but its flag taken away, which it was
      exactly where it was to be enabled and an enabled control is in the way. */
  ghost predicate StoredAsItMay(before: Store, after: Store, name: string, d: Document) {
    && name in Readables(after)
    && Readables(after)[name].devices == d.devices && Readables(after)[name].rest == d.rest
    && (ControlIsEnabled(Readables(after)[name]) <==> ControlIsEnabled(d) && Free(before, name, d))
    && (ControlIsEnabled(Readables(after)[name]) == ControlIsEnabled(d) ==> Readables(after)[name] == d)
    && after.Keys == before.Keys + {name}
    && forall other :: other in before && other != name ==> after[other] == before[other]
  }

  datatype SaveResult = SavedAs(enabled: bool, withheld: Option<string>) | SaveFailed

  datatype SetResult = Already | NotReadable | InTheWay(owner: string) | NotValid | Changed | SetFailed

  class ControlStore {
    var store: Store

    constructor (store: Store)
      ensures this.store == store
    {
      this.store := store;
    }

    /** `_enabled_owner_elsewhere`. */
    method EnabledOwnerElsewhere(name: string, d: Document) returns (owner: Option<(string, Identity)>)
      ensures owner.None? <==> Free(store, name, d)
      ensures owner.Some? ==> owner.value.0 in Readables(store) && owner.value.1 in Owned(d.devices)
                              && IsInTheWay(store, name, d, owner.value.0)
    {
      var documents: Documents := map[];
      var todo := store.Keys;
      while todo != {}
        invariant todo <= store.Keys
        invariant forall k :: k in documents <==> k in store && k !in todo && k != name && store[k].Readable?
        invariant forall k :: k in documents ==> documents[k] == store[k].document
        decreases |todo|
      {
        var other :| other in todo;
        todo := todo - {other};
        if other != name && store[other].Readable? {
          documents := documents[other := store[other].document];
        }
      }
      owner := EnabledOwnerOf(Owned(d.devices), documents, name);
      assert forall k :: k in documents ==>
        (Commands(Owned(d.devices), documents, name, k) <==> Commands(Owned(d.devices), Readables(store), name, k));
      assert forall k :: k in Readables(store) && k !in documents ==>
               !Commands(Owned(d.devices), Readables(store), name, k);
    }

    /** `_save_validated`. `writes` is whether the disk takes the document. */
    method SaveValidated(name: string, d: Document, writes: bool) returns (r: SaveResult)
      modifies this
      ensures store == if writes then Put(old(store), name, Saved(old(store), name, d)) else old(store)
      ensures writes ==> StoredAsItMay(old(store), store, name, d)
      ensures r.SavedAs? <==> writes
      ensures r.SavedAs? ==> r.enabled == ControlIsEnabled(Saved(old(store), name, d))
      ensures r.SavedAs? ==> (r.withheld.Some? <==> ControlIsEnabled(d) && !Free(old(store), name, d))
      ensures r.SavedAs? && r.withheld.Some? ==> IsInTheWay(old(store), name, d, r.withheld.value)
    {
      var document, withheld := d, None;
      if ControlIsEnabled(d) {
        var clash := EnabledOwnerElsewhere(name, d);
        if clash.Some? {
          document := d.(enabled := Is(false));
          withheld := Some(clash.value.0);
        }
      }
      if !writes {
        return SaveFailed;
      }
      store := store[name := Readable(document)];
      r := SavedAs(ControlIsEnabled(document), withheld);
    }

    /** `_set_enabled_locked`. `valid` is what validation makes of the document on the way out. */
    method SetEnabledLocked(name: string, on: bool, valid: Document -> bool, writes: bool) returns (r: SetResult)
      modifies this
      ensures r.NotReadable? <==> name !in Readables(old(store))
      ensures r.Already? <==> name in Readables(old(store)) && ControlIsEnabled(Readables(old(store))[name]) == on
      ensures r.InTheWay? <==> name in Readables(old(store)) && on && !ControlIsEnabled(Readables(old(store))[name])
                               && !Free(old(store), name, Readables(old(store))[name])
      ensures r.InTheWay? ==> IsInTheWay(old(store), name, Readables(old(store))[name], r.owner)
      ensures r.NotValid? <==> MayFlip(old(store), name, on) && !valid(Flagged(old(store), name, on))
      ensures r.Changed? <==> MayFlip(old(store), name, on) && valid(Flagged(old(store), name, on)) && writes
      ensures r.SetFailed? <==> MayFlip(old(store), name, on) && valid(Flagged(old(store), name, on)) && !writes
      ensures if r.Changed? then OnlyTheFlag(old(store), store, name, on) else store == old(store)
      ensures r.Changed? ==> store == Put(old(store), name, Flagged(old(store), name, on))
    {
      if name !in store || store[name].Unreadable? {
        return NotReadable;
      }
      var document := store[name].document;
      if ControlIsEnabled(document) == on {
        return Already;
      }
      if on {
        var clash := EnabledOwnerElsewhere(name, document);
        if clash.Some? {
          return InTheWay(clash.value.0);
        }
      }
      document := document.(enabled := Is(on));
      if !valid(document) {
        return NotValid;
      }
      if !writes {
        return SetFailed;
      }
      store := store[name := Readable(document)];
      r := Changed;
    }

    /** `_delete_control_result`: whether there was anything to remove. */
    method Delete(name: string) returns (removed: bool)
      modifies this
      ensures store == old(store) - {name} && removed == (name in old(store))
    {
      removed := name in store;
      store := store - {name};
    }
  }

  // ---------- several threads at once ----------

  type Thread = nat

  /** How far a thread has got with its call. A save validates before it takes the lock. */
  datatype Task =
    | Waiting
    | Saving(name: string, asked: Document)
    | SaveHeld(name: string, asked: Document)
    | SaveChecked(name: string, asked: Document, document: Document)
    | Setting(name: string, on: bool)
    | SetHeld(name: string, on: bool)
    | SetLoaded(name: string, loaded: Document)
    | SetChecked(name: string, document: Document)
    | Deleting(name: string)
    | DeleteHeld(name: string)
    | Leaving

  predicate InLock(t: Task) {
    t.SaveHeld? || t.SaveChecked? || t.SetHeld? || t.SetLoaded? || t.SetChecked? || t.DeleteHeld? || t.Leaving?
  }

  datatype System = System(store: Store, lock: Option<Thread>, tasks: map<Thread, Task>)

  /** `Crash` ends the process and every thread in it, leaving what is on the disk. */
  datatype Step =
    | AskSave(t: Thread, name: string, document: Document)
    | AskSet(t: Thread, name: string, on: bool)
    | AskDelete(t: Thread, name: string)
    | Lock(t: Thread)
    | CheckSave(t: Thread)
    | Load(t: Thread)
    | CheckSet(t: Thread)
    | Commit(t: Thread)
    | Refuse(t: Thread)
    | Unlock(t: Thread)
    | Crash

  function TaskOf(s: System, t: Thread): Task {
    if t in s.tasks then s.tasks[t] else Waiting
  }

  predicate Enabled(s: System, step: Step) {
    match step
    case AskSave(t, _, _) => TaskOf(s, t).Waiting?
    case AskSet(t, _, _) => TaskOf(s, t).Waiting?
    case AskDelete(t, _) => TaskOf(s, t).Waiting?
    case Lock(t) => s.lock.None? && (TaskOf(s, t).Saving? || TaskOf(s, t).Setting? || TaskOf(s, t).Deleting?)
    case CheckSave(t) => TaskOf(s, t).SaveHeld?
    case Load(t) => TaskOf(s, t).SetHeld?
    case CheckSet(t) => TaskOf(s, t).SetLoaded?
    case Commit(t) => TaskOf(s, t).SaveChecked? || TaskOf(s, t).SetChecked? || TaskOf(s, t).DeleteHeld?
    case Refuse(t) => TaskOf(s, t).SaveChecked? || TaskOf(s, t).SetChecked? || TaskOf(s, t).DeleteHeld?
    case Unlock(t) => TaskOf(s, t).Leaving?
    case Crash => true
  }

  function At(s: System, t: Thread, task: Task): System {
    s.(tasks := s.tasks[t := task])
  }

  function Held(task: Task): Task
    requires task.Saving? || task.Setting? || task.Deleting?
  {
    match task
    case Saving(name, d) => SaveHeld(name, d)
    case Setting(name, on) => SetHeld(name, on)
    case Deleting(name) => DeleteHeld(name)
  }

  /** The document as `_set_enabled_locked` reads it, where it is to be changed at all. */
  function Loaded(store: Store, name: string, on: bool): Task {
    if name !in store || store[name].Unreadable? || ControlIsEnabled(store[name].document) == on then Leaving
    else if on then SetLoaded(name, store[name].document)
    else SetChecked(name, store[name].document.(enabled := Is(false)))
  }

  function Committed(store: Store, task: Task): Store
    requires task.SaveChecked? || task.SetChecked? || task.DeleteHeld?
  {
    if task.DeleteHeld? then store - {task.name} else Put(store, task.name, task.document)
  }

  ghost function Next(s: System, step: Step): System
    requires Enabled(s, step)
  {
    match step
    case AskSave(t, name, d) => At(s, t, Saving(name, d))
    case AskSet(t, name, on) => At(s, t, Setting(name, on))
    case AskDelete(t, name) => At(s, t, Deleting(name))
    case Lock(t) => At(s, t, Held(TaskOf(s, t))).(lock := Some(t))
    case CheckSave(t) =>
      var task := TaskOf(s, t);
      At(s, t, SaveChecked(task.name, task.asked, Saved(s.store, task.name, task.asked)))
    case Load(t) => At(s, t, Loaded(s.store, TaskOf(s, t).name, TaskOf(s, t).on))
    case CheckSet(t) =>
      var task := TaskOf(s, t);
      At(s, t, if Free(s.store, task.name, task.loaded)
               then SetChecked(task.name, task.loaded.(enabled := Is(true))) else Leaving)
    case Commit(t) => At(s, t, Leaving).(store := Committed(s.store, TaskOf(s, t)))
    case Refuse(t) => At(s, t, Leaving)
    case Unlock(t) => At(s, t, Waiting).(lock := None)
    case Crash => System(s.store, None, map[])
  }

  ghost predicate Run(steps: seq<Step>, states: seq<System>) {
    && |states| == |steps| + 1
    && forall i :: 0 <= i < |steps| ==> Enabled(states[i], steps[i]) && states[i + 1] == Next(states[i], steps[i])
  }

  ghost predicate Initial(s: System) {
    Exclusive(s.store) && s.lock.None? && s.tasks == map[]
  }

  // ---------- what every step keeps ----------

  ghost predicate LockIsSafe(s: System) {
    && (forall t :: t in s.tasks && InLock(s.tasks[t]) ==> s.lock == Some(t))
    && (s.lock.Some? ==> s.lock.value in s.tasks && InLock(s.tasks[s.lock.value]))
  }

  /** What a thread has checked is still true of the store it checked it against. */
  ghost predicate TaskIsSafe(store: Store, task: Task) {
    match task
    case SaveChecked(name, asked, d) => d == Saved(store, name, asked)
    case SetLoaded(name, loaded) => name in store && store[name] == Readable(loaded) && !ControlIsEnabled(loaded)
    case SetChecked(name, d) =>
      && name in store && store[name].Readable?
      && d == store[name].document.(enabled := d.enabled) && d.enabled.Is?
      && ControlIsEnabled(store[name].document) != d.enabled.on
      && (ControlIsEnabled(d) ==> Free(store, name, d))
    case _ => true
  }

  ghost predicate Safe(s: System) {
    LockIsSafe(s) && Exclusive(s.store) && forall t :: t in s.tasks ==> TaskIsSafe(s.store, s.tasks[t])
  }

  lemma StepKeepsLock(s: System, step: Step)
    requires LockIsSafe(s) && Enabled(s, step)
    ensures LockIsSafe(Next(s, step))
  {
  }

  lemma StepKeepsExclusive(s: System, step: Step)
    requires Safe(s) && Enabled(s, step)
    ensures Exclusive(Next(s, step).store)
  {
    if step.Commit? {
      var task := TaskOf(s, step.t);
      assert TaskIsSafe(s.store, task);
      if task.SaveChecked? {
        SavingStaysExclusive(s.store, task.name, task.asked);
      } else if task.SetChecked? {
        StoringWhatIsFreeStaysExclusive(s.store, task.name, task.document);
      }
    }
  }

  lemma StepKeepsTasks(s: System, step: Step)
    requires Safe(s) && Enabled(s, step)
    ensures forall t :: t in Next(s, step).tasks ==> TaskIsSafe(Next(s, step).store, Next(s, step).tasks[t])
  {
    var after := Next(s, step);
    forall t | t in after.tasks
      ensures TaskIsSafe(after.store, after.tasks[t])
    {
      if t in s.tasks && after.tasks[t] == s.tasks[t] {
        assert TaskIsSafe(s.store, s.tasks[t]);
      }
    }
  }

  lemma {:induction false} RunIsSafe(steps: seq<Step>, states: seq<System>, n: nat)
    requires Run(steps, states) && Initial(states[0]) && n < |states|
    ensures Safe(states[n])
  {
    if n > 0 {
      RunIsSafe(steps, states, n - 1);
      StepKeepsLock(states[n - 1], steps[n - 1]);
      StepKeepsExclusive(states[n - 1], steps[n - 1]);
      StepKeepsTasks(states[n - 1], steps[n - 1]);
    }
  }

  /** Starting from a clean store, no interleaving of saves, set-enableds and deletes, with crashes
      anywhere, ever stores two enabled controls that may command one actuator. */
  lemma OneEnabledOwnerPerActuator(steps: seq<Step>, states: seq<System>, n: nat)
    requires Run(steps, states) && Initial(states[0]) && n < |states|
    ensures Exclusive(states[n].store)
  {
    RunIsSafe(steps, states, n);
  }

  /** No lost update: what a set-enabled commits is the document stored at that moment, with nothing
      but `enabled` changed; what a save commits is the document it was given, disabled exactly where
      an enabled control is in the way at that moment; and nothing else in the store moves. */
  lemma CommitsAreCurrent(steps: seq<Step>, states: seq<System>, n: nat)
    requires Run(steps, states) && Initial(states[0]) && n < |steps| && steps[n].Commit?
    ensures var before, after, task := states[n].store, states[n + 1].store, TaskOf(states[n], steps[n].t);
            && (task.SetChecked? ==>
                  && task.name in before && before[task.name].Readable? && task.document.enabled.Is?
                  && after == Put(before, task.name, before[task.name].document.(enabled := task.document.enabled))
                  && ControlIsEnabled(before[task.name].document) != task.document.enabled.on)
            && (task.SaveChecked? ==> after == Put(before, task.name, Saved(before, task.name, task.asked)))
            && (task.DeleteHeld? ==> after == before - {task.name})
  {
    RunIsSafe(steps, states, n);
    assert TaskIsSafe(states[n].store, TaskOf(states[n], steps[n].t));
  }

  /** A thread that has the lock for a set-enabled, and what it has after it has loaded and checked. */
  ghost function SetChecks(s: System, t: Thread): System
    requires TaskOf(s, t).SetHeld?
  {
    var loaded := Next(s, Load(t));
    if TaskOf(loaded, t).SetLoaded? then Next(loaded, CheckSet(t)) else loaded
  }

  /** The steps of a set-enabled are the tool: it goes on to write exactly where the tool would, and what
      it commits is the document as the tool stores it, with only the flag changed. */
  lemma TheStepsSetAsTheToolDoes(s: System, t: Thread)
    requires TaskOf(s, t).SetHeld?
    ensures var name, on, checked := TaskOf(s, t).name, TaskOf(s, t).on, SetChecks(s, t);
            && checked.store == s.store
            && (TaskOf(checked, t).SetChecked? <==> MayFlip(s.store, name, on))
            && (TaskOf(checked, t).SetChecked? ==>
                  var after := Next(checked, Commit(t)).store;
                  after == Put(s.store, name, Flagged(s.store, name, on)) && OnlyTheFlag(s.store, after, name, on))
  {
  }

  /** And so are the steps of a save. */
  lemma TheStepsSaveAsTheToolDoes(s: System, t: Thread)
    requires TaskOf(s, t).SaveHeld?
    ensures StoredAsItMay(s.store, Next(Next(s, CheckSave(t)), Commit(t)).store, TaskOf(s, t).name, TaskOf(s, t).asked)
  {
  }

  /** What the lock is for: two saves that both looked before either wrote store two owners. */
  lemma CheckingOutsideTheLockIsNotEnough(store: Store, a: string, first: Document, b: string, second: Document)
    requires a != b && ControlIsEnabled(first) && ControlIsEnabled(second)
    requires Clash(Owned(first.devices), Owned(second.devices))
    requires Free(store, a, first) && Free(store, b, second)
    ensures !Exclusive(Put(Put(store, a, Saved(store, a, first)), b, Saved(store, b, second)))
  {
    var after := Put(Put(store, a, first), b, second);
    assert a in Readables(after) && b in Readables(after);
  }
}

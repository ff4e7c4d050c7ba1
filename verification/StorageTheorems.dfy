/** What the invariant of the storage lifecycle means for every run. */
module StorageTheorems {
  import opened ObjectLayout
  import opened StorageLifecycle
  import opened StorageSafety

  /** In every run the count of a storage is the number of its owners; it is freed
      at most once, exactly when the count is zero, handed over at most once, and
      torn down at most once. */
  lemma StorageFate(stash: Option<Stash>, es: seq<Event>, x: Storage)
    ensures var s := Run(Initial(stash), es);
            && Rc(s, x) == Holders(s, x)
            && Times(s.freed, x) <= 1 && (Times(s.freed, x) == 1 <==> x < s.next && Holders(s, x) == 0)
            && Times(s.handed, x) <= 1 && (Times(s.handed, x) == 1 ==> InMagic(s, x) == 0)
            && Times(s.torn, x) <= 1
  {
    RunKeepsInv(stash, es);
    assert StorageOk(Run(Initial(stash), es), x);
    hide StackHolds, Copies, Ctors, Restores, Run;
  }

  /** When the referent is gone and nothing runs, every storage it ever had was
      either freed or handed over, and exactly once. */
  lemma FreedReferentFate(stash: Option<Stash>, es: seq<Event>, x: Storage)
    requires var s := Run(Initial(stash), es); !s.alive && s.frames == Bottom && x < s.next
    ensures var s := Run(Initial(stash), es); Times(s.freed, x) + Times(s.handed, x) == 1
  {
    RunKeepsInv(stash, es);
    assert StorageOk(Run(Initial(stash), es), x);
    hide Run;
  }

  /** When nothing runs, no referent is left busy. */
  lemma NeverLeftBusy(stash: Option<Stash>, es: seq<Event>)
    ensures var s := Run(Initial(stash), es);
            s.frames == Bottom && s.magic.Some? ==> s.magic.value.obj.Some? && (s.magic.value.marker == Ready || s.magic.value.marker == Failed)
  {
    RunKeepsInv(stash, es);
    hide Run;
  }

  /** For a usable storage exactly the calls for its classes were made, every initialiser
      and every ADJUST block once and in order, and it has not been torn down. */
  lemma ReadyMeansComplete(stash: Option<Stash>, es: seq<Event>)
    ensures var s := Run(Initial(stash), es);
            s.magic.Some? && s.magic.value.marker == Ready ==>
              && s.magic.value.obj.Some? && s.magic.value.obj.value in s.made && s.magic.value.obj.value in s.ran
              && CallsFor(s.ran[s.magic.value.obj.value], s.made[s.magic.value.obj.value])
              && Times(s.torn, s.magic.value.obj.value) == 0
  {
    RunKeepsInv(stash, es);
    hide Run, Plan, CallsFor;
    var s := Run(Initial(stash), es);
    if s.magic.Some? && s.magic.value.marker == Ready { PlanCalls(s.made[s.magic.value.obj.value]); }
  }

  predicate IsReady(s: State) {
    s.magic.Some? && s.magic.value.marker == Ready
  }

  /** The only ways to become ready: the constructor ends with the storage it made,
      still initialising, under the blessing it began with; or a restore attaches. */
  lemma BecomesReady(stash: Option<Stash>, es: seq<Event>, e: Event)
    requires var s := Run(Initial(stash), es); IsReady(Step(s, e)) && !IsReady(s)
    ensures var s := Run(Initial(stash), es);
            && s.frames.On?
            && (e == Constructed || e == Restored)
            && (e == Constructed ==> s.frames.top.Ctor? && s.frames.top.todo == [] && BlessingKept(s, s.frames.top)
                                     && s.magic.value.marker == Initializing)
            && (e == Restored ==> s.frames.top.Restoring? && Visible(s) == None)
  {
    RunKeepsInv(stash, es);
    hide Run;
    ReadySteps(Run(Initial(stash), es), e);
  }

  lemma ReadySteps(s: State, e: Event)
    requires Inv(s) && IsReady(Step(s, e)) && !IsReady(s)
    ensures s.frames.On? && (e == Constructed || e == Restored)
    ensures e == Constructed ==> s.frames.top.Ctor? && s.frames.top.todo == [] && BlessingKept(s, s.frames.top)
                                 && s.magic.value.marker == Initializing
    ensures e == Restored ==> s.frames.top.Restoring? && Visible(s) == None
  {
    hide StoragesOk, FramesOk, DeadOk, Step;
    MagicThrough(s, e);
    if e == Constructed { StillInitializing(s); }
  }

  predicate Finishes(s: State) {
    s.frames.On? && s.frames.top.Ctor? && s.frames.top.todo == [] && BlessingKept(s, s.frames.top)
  }

  predicate RestoreAttaches(s: State) {
    s.frames.On? && s.frames.top.Restoring? && AttachesRestored(s)
  }

  /** What a step may make of the magic. */
  predicate MagicStep(s: State, e: Event, m: Option<Magic>) {
    || m == s.magic || m == None
    || (e.NewObject? && m.value.marker == Initializing && s.magic == None)
    || (e == ArgumentsRead && m.value.marker == Initializing && s.frames.On? && s.frames.top.Arguments?)
    || (e == Constructed && Finishes(s) && m == Some(s.magic.value.(marker := Ready)))
    || ((e.Bless? || e.Destroy?) && s.magic.Some? && m == Some(s.magic.value.(marker := Releasing)))
    || (e == Leave && s.magic.Some? && m.value.marker in {Released, Failed} && m.value.obj == s.magic.value.obj)
    || (e == Leave && m.value.marker == ReleasingFields && m.value.obj == None)
    || (e == Restored && RestoreAttaches(s) && m == Some(Magic(s.nextMagic, Some(s.frames.top.storage), Ready)))
  }

  lemma LetGoMagic(s: State)
    requires s.frames.On? && s.frames.top.Guard?
    ensures LetGo(s).magic == s.magic
  {
    hide Rc, Drop;
    DropMagic(Pop(s), s.frames.top.storage);
  }

  lemma ReleaseFieldsMagic(s: State)
    requires s.frames.On? && s.frames.top.Guard? && Detaches(s, s.frames.top)
    ensures ReleaseFields(s).magic == Some(s.magic.value.(obj := None, marker := ReleasingFields))
  {
    hide Rc, Drop;
    var m := Some(s.magic.value.(obj := None, marker := ReleasingFields));
    DropMagic(Pop(s).(magic := m), s.frames.top.storage);
    DropMagic(Detach(Pop(s)), s.frames.top.storage);
  }

  lemma LeaveGuardMagic(s: State)
    requires s.frames.On? && s.frames.top.Guard?
    ensures MagicStep(s, Leave, LeaveGuard(s).magic)
  {
    hide LetGo, ReleaseFields, Retires, Preserves;
    LetGoMagic(s);
    if Detaches(s, s.frames.top) {
      LetGoMagic(Mark(s, Released));
      LetGoMagic(Mark(s, Failed));
      ReleaseFieldsMagic(s);
    }
  }

  lemma ReleaseMagic(s: State, destroying: bool, hook: bool)
    requires Releasable(s)
    ensures Release(s, destroying, hook).magic == Some(s.magic.value.(marker := Releasing))
  {
    hide Rc;
  }

  lemma BlessingMagic(s: State, target: Option<Stash>, hook: bool)
    ensures MagicStep(s, Bless(target, hook), ChangeBlessing(s, target, hook).magic)
  {
    hide Release;
    if Releasable(s) { ReleaseMagic(Push(s, Blessing(target)), false, hook); }
  }

  lemma BeginClearMagic(s: State, hook: bool)
    ensures MagicStep(s, Destroy(hook), BeginClear(s, hook).magic)
  {
    hide Release;
    if Releasable(s) { ReleaseMagic(Push(s, Clearing), true, hook); }
  }

  lemma FinishReleaseMagic(s: State)
    requires s.frames.On? && s.frames.top.AfterRelease?
    ensures FinishRelease(s).magic == s.magic || FinishRelease(s).magic == None
  {
    hide Unmagic;
    UnmagicFrame(Pop(s));
  }

  lemma FinishClearMagic(s: State)
    requires s.frames.On? && s.frames.top.Clearing?
    ensures FinishClear(s).magic == s.magic || FinishClear(s).magic == None
  {
    hide Unmagic, Refs;
    UnmagicFrame(Pop(s));
    if s.magic.Some? && s.magic.value.obj.Some? { UnmagicFrame(TakeStorage(Pop(s))); }
  }

  lemma DropMagic(s: State, x: Storage)
    ensures Drop(s, x).magic == s.magic && Hold(s, x).magic == s.magic
  {}

  lemma FinishRestoreMagic(s: State)
    requires s.frames.On? && s.frames.top.Restoring?
    ensures FinishRestore(s).magic == if RestoreAttaches(s) then Some(Magic(s.nextMagic, Some(s.frames.top.storage), Ready)) else s.magic
  {
    hide FinishRestore, Drop;
    if AttachesRestored(s) {
      RestoredShape(s);
    } else {
      NotRestored(s);
      DropMagic(Pop(s), s.frames.top.storage);
    }
  }

  lemma NewStorageMagic(s: State)
    ensures NewStorage(s, []).magic == s.magic
  {}

  lemma ConstructMagic(s: State, byName: bool, stash: Stash, ds: seq<Decl>)
    ensures Construct(s, byName, stash, ds).magic == Some(Magic(s.nextMagic, Some(s.next), Initializing))
  {
    hide Rc, Plan;
  }

  lemma BeginMagic(s: State, byName: bool, stash: Stash, ds: seq<Decl>)
    requires s.magic == None
    ensures MagicStep(s, NewObject(byName, stash, ds), Begin(s, byName, stash, ds).magic)
  {
    hide Construct;
    ConstructMagic(s, true, stash, ds);
  }

  lemma TopMagic(s: State)
    requires s.frames.On?
    ensures s.frames.top.Ctor? && s.frames.top.todo == [] ==>
      FinishConstruct(s).magic == if Finishes(s) then Some(s.magic.value.(marker := Ready)) else s.magic
    ensures s.frames.top.Ctor? && s.frames.top.todo != [] && s.frames.top.storage in s.ran ==> RunCall(s).magic == s.magic
  {}

  lemma Unmoved(s: State, e: Event, m: Option<Magic>)
    requires m == s.magic || m == None
    ensures MagicStep(s, e, m)
  {}

  lemma ActionMagic(s: State, e: Event)
    requires IsAction(e)
    ensures MagicStep(s, e, Step(s, e).magic)
  {
    hide Begin, NewStorage, ChangeBlessing, BeginClear, Refs, Hold;
    match e
    case NewObject(byName, stash, ds) => if s.magic == None { BeginMagic(s, byName, stash, ds); }
    case Bless(target, hook) => BlessingMagic(s, target, hook);
    case Keep => if Visible(s).Some? { DropMagic(s, Visible(s).value); }
    case Restore(hydrate, stash) => NewStorageMagic(s);
    case Destroy(hook) => BeginClearMagic(s, hook);
    case _ =>
  }

  lemma PlainMagic(s: State, e: Event)
    requires s.frames.On? && (e.Call? || e.Blessed? || e.Return? || e.Throw? || e.Unkeep?)
    ensures Step(s, e).magic == s.magic
  {
    hide Hold, LeaveGuard, FinishRelease, FinishRestore, FinishClear, FinishConstruct, Construct, ChangeBlessing, BeginClear, NewStorage, Refs, Rc, Visible, Active;
    match e
    case Call =>
    case Blessed =>
    case Return =>
    case Throw =>
    case Unkeep =>
  }

  lemma ReturnMagic(s: State, e: Event)
    requires s.frames.On? && (e.ArgumentsRead? || e.Constructed? || e.Leave? || e.DestructorsDone? || e.Restored? || e.Cleared?)
    ensures MagicStep(s, e, Step(s, e).magic)
  {
    hide LeaveGuard, FinishRelease, FinishRestore, FinishClear, FinishConstruct, RunCall, Construct, ChangeBlessing, BeginClear, NewStorage, Hold, Refs, Drop, MagicStep;
    Unmoved(s, e, s.magic);
    Unmoved(s, e, None);
    match e
    case Leave => if s.frames.top.Guard? { LeaveGuardMagic(s); }
    case DestructorsDone => if s.frames.top.AfterRelease? { FinishReleaseMagic(s); }
    case Restored => if s.frames.top.Restoring? { RestoredMagic(s); }
    case Cleared => if s.frames.top.Clearing? { FinishClearMagic(s); }
    case Constructed => ConstructedMagic(s);
    case ArgumentsRead => ArgumentsMagic(s);
  }

  lemma RestoredMagic(s: State)
    requires s.frames.On? && s.frames.top.Restoring?
    ensures MagicStep(s, Restored, FinishRestore(s).magic)
  {
    hide FinishRestore;
    FinishRestoreMagic(s);
  }

  lemma ArgumentsMagic(s: State)
    requires s.frames.On?
    ensures MagicStep(s, ArgumentsRead, Step(s, ArgumentsRead).magic)
  {
    hide Construct;
    if s.frames.top.Arguments? { ConstructMagic(Pop(s), false, s.frames.top.stash, s.frames.top.classes); }
  }

  lemma ConstructedMagic(s: State)
    requires s.frames.On?
    ensures s.frames.top.Ctor? && s.frames.top.todo == [] ==> MagicStep(s, Constructed, FinishConstruct(s).magic)
  {
    hide FinishConstruct;
    TopMagic(s);
  }

  lemma MagicThrough(s: State, e: Event)
    ensures MagicStep(s, e, Step(s, e).magic)
  {
    hide Step, MagicStep;
    if IsAction(e) {
      ActionMagic(s, e);
    } else if s.frames.On? && (e.Call? || e.Blessed? || e.Return? || e.Throw? || e.Unkeep?) {
      PlainMagic(s, e);
      Unmoved(s, e, s.magic);
    } else if s.frames.On? {
      ReturnMagic(s, e);
    } else {
      NoFrame(s, e);
    }
  }

  lemma NoFrame(s: State, e: Event)
    requires s.frames.Bottom? && !IsAction(e)
    ensures Step(s, e) == s && MagicStep(s, e, s.magic)
  {}

  predicate Attaches(s: State, t: State) {
    t.magic.Some? && t.magic.value.obj.Some? && !(s.magic.Some? && s.magic.value.obj == t.magic.value.obj)
  }

  /** While TEARDOWN runs nothing attaches a storage.  While field destructors run
      exactly one thing does: the end of a restore into a payload whose blessing
      was removed meanwhile. */
  lemma AttachesDuringRelease(stash: Option<Stash>, es: seq<Event>, e: Event)
    requires var s := Run(Initial(stash), es); s.magic.Some? && s.magic.value.marker in {Releasing, ReleasingFields}
    ensures var s := Run(Initial(stash), es);
            Attaches(s, Step(s, e)) <==>
              (e == Restored && s.magic.value.marker == ReleasingFields && s.stash == None
               && s.frames.On? && s.frames.top.Restoring?)
  {
    RunKeepsInv(stash, es);
    hide Run;
    var s := Run(Initial(stash), es);
    hide StoragesOk, FramesOk, DeadOk, Step;
    MagicThrough(s, e);
    if e == Restored && s.frames.On? && s.frames.top.Restoring? {
      RestoredStep(s);
      FinishRestoreMagic(s);
    }
  }

  lemma RestoredStep(s: State)
    requires s.frames.On? && s.frames.top.Restoring?
    ensures Step(s, Restored) == FinishRestore(s)
  {}

  // ----- failed initialisation

  /** A constructor that failed leaves its guard: an object made from a class name keeps
      its partial storage for destruction; an existing object loses it at once and,
      unless a destructor interferes, can be constructed again. */
  lemma FailedInitialisation(s: State)
    requires s.frames.On? && s.frames.top.Guard? && !s.frames.top.destroying
    requires s.magic.Some? && s.magic.value.obj == Some(s.frames.top.storage) && s.magic.value.marker == Initializing
    ensures var t := LeaveGuard(s);
            if s.frames.top.preserveFailed then t.magic == Some(s.magic.value.(marker := Failed))
            else t.frames.On? && t.frames.top.AfterRelease? && FinishRelease(t).magic == None
  {
    hide Unmagic, Rc, LetGo, ReleaseFields;
    if s.frames.top.preserveFailed {
      LetGoMagic(Mark(s, Failed));
    } else {
      ReleaseFieldsMagic(s);
      ReleaseFieldsFrame(s);
      UnmagicFrame(Pop(LeaveGuard(s)));
    }
  }

  lemma ReleaseFieldsFrame(s: State)
    requires s.frames.On? && s.frames.top.Guard? && Detaches(s, s.frames.top)
    ensures ReleaseFields(s).frames == On(AfterRelease(Some(s.magic.value.id), s.frames.top.destroying), s.frames.below)
  {
    hide Drop, Detach;
    DetachSameFrames(Pop(s));
    DropSameFrames(Detach(Pop(s)), s.frames.top.storage);
  }

  // ----- the order of construction

  lemma {:induction false} InitialisersInOrder(ds: seq<Decl>)
    ensures |Initialisers(ds)| == |ds| && forall i :: 0 <= i < |ds| ==> Initialisers(ds)[i] == Initialise(ds[i].stash)
  {
    if ds != [] { InitialisersInOrder(ds[1..]); }
  }

  lemma {:induction false} AdjustsBeforeTail(ds: seq<Decl>, n: nat)
    requires 0 < n <= |ds|
    ensures AdjustsBefore(ds, n) == ds[0].adjusts + AdjustsBefore(ds[1..], n - 1)
  {
    if n > 1 {
      AdjustsBeforeTail(ds, n - 1);
      assert ds[1..][n - 2] == ds[n - 1];
    }
  }

  lemma {:induction false} AdjustsLength(ds: seq<Decl>)
    ensures |Adjusts(ds)| == AdjustsBefore(ds, |ds|)
  {
    if ds != [] {
      AdjustsLength(ds[1..]);
      AdjustsBeforeTail(ds, |ds|);
    }
  }

  lemma {:induction false} AdjustPlace(ds: seq<Decl>, i: nat, j: nat)
    requires i < |ds| && j < ds[i].adjusts
    ensures AdjustsBefore(ds, i) + j < |Adjusts(ds)| && Adjusts(ds)[AdjustsBefore(ds, i) + j] == Adjust(ds[i].stash, j)
  {
    if i > 0 {
      AdjustsBeforeTail(ds, i);
      assert ds[1..][i - 1] == ds[i];
      AdjustPlace(ds[1..], i - 1, j);
    }
  }

  /** The plan is exactly that list of calls. */
  lemma PlanCalls(ds: seq<Decl>)
    ensures CallsFor(Plan(ds), ds)
  {
    InitialisersInOrder(ds);
    AdjustsLength(ds);
    hide Initialisers, Adjusts, AdjustsBefore;
    forall i: nat, j: nat | i < |ds| && j < ds[i].adjusts ensures AdjustsAt(Plan(ds), ds, i, j) { AdjustPlace(ds, i, j); }
  }

  lemma {:induction false} AdjustOwner(ds: seq<Decl>, n: nat, k: nat) returns (i: nat, j: nat)
    requires n <= |ds| && k < AdjustsBefore(ds, n)
    ensures i < n && j < ds[i].adjusts && k == AdjustsBefore(ds, i) + j
  {
    if k < AdjustsBefore(ds, n - 1) {
      i, j := AdjustOwner(ds, n - 1, k);
    } else {
      i, j := n - 1, k - AdjustsBefore(ds, n - 1);
    }
  }

  /** There is one such list only. */
  lemma CallsDetermined(a: seq<Call>, b: seq<Call>, ds: seq<Decl>)
    requires CallsFor(a, ds) && CallsFor(b, ds)
    ensures a == b
  {
    hide AdjustsBefore;
    forall k | |ds| <= k < |a| ensures a[k] == b[k] {
      var i, j := AdjustOwner(ds, |ds|, k - |ds|);
      assert AdjustsAt(a, ds, i, j) && AdjustsAt(b, ds, i, j);
    }
  }

  /** A constructor starts with these calls to make for the classes it was called for,
      at once for an object made from a class name, and when its arguments are read for
      an existing one. */
  lemma ConstructorStarts(s: State, stash: Stash, ds: seq<Decl>)
    requires Active(s) && s.magic == None
    ensures var t := Step(s, NewObject(true, stash, ds)); Starts(s, t, stash, ds)
    ensures s.stash == Some(stash) ==> Step(s, NewObject(false, stash, ds)).frames == On(Arguments(stash, ds), s.frames)
    ensures var u := s.(frames := On(Arguments(stash, ds), s.frames)); Starts(s, Step(u, ArgumentsRead), stash, ds)
  {
    PlanCalls(ds);
    ConstructShape(s, true, stash, ds);
    ConstructShape(s, false, stash, ds);
    hide Construct, Plan, CallsFor;
    var u := s.(frames := On(Arguments(stash, ds), s.frames));
    assert Pop(u) == s;
  }

  /** From `s` a constructor of these classes has started: nothing is called yet. */
  ghost predicate Starts(s: State, t: State, stash: Stash, ds: seq<Decl>) {
    && t.frames.On? && t.frames.top.Ctor? && t.frames.top.storage == s.next && t.frames.top.stash == stash
    && CallsFor(t.frames.top.todo, ds)
    && s.next in t.made && t.made[s.next] == ds && s.next in t.ran && t.ran[s.next] == []
  }

  /** What was called for a storage is a beginning of the plan for its classes. */
  ghost predicate FollowsPlan(s: State, x: Storage) {
    x in s.made && x in s.ran && s.ran[x] <= Plan(s.made[x])
  }

  ghost predicate PlansOk(s: State) {
    forall x {:trigger FollowsPlan(s, x)} :: x in s.made || x in s.ran ==> FollowsPlan(s, x)
  }

  predicate SamePlans(s: State, t: State) {
    t.made == s.made && t.ran == s.ran
  }

  lemma SamePlansOk(s: State, t: State)
    requires PlansOk(s) && SamePlans(s, t)
    ensures PlansOk(t)
  {
    hide Plan;
    forall x | x in t.made || x in t.ran ensures FollowsPlan(t, x) { assert FollowsPlan(s, x); }
  }

  lemma ReleasePlans(s: State, target: Option<Stash>, hook: bool)
    ensures SamePlans(s, ChangeBlessing(s, target, hook)) && SamePlans(s, BeginClear(s, hook))
  {
    hide Release, Rc, Refs;
    ChangeBlessingShape(s, target, hook);
    if Releasable(s) {
      ReleaseShape(Push(s, Blessing(target)), false, hook);
      ReleaseShape(Push(s, Clearing), true, hook);
    }
  }

  lemma ClearPlans(s: State)
    requires s.frames.On? && s.frames.top.Clearing?
    ensures SamePlans(s, FinishClear(s))
  {
    hide Unmagic, Refs;
    UnmagicFrame(Pop(s));
    if s.magic.Some? && s.magic.value.obj.Some? { UnmagicFrame(TakeStorage(Pop(s))); }
  }

  lemma ReleasedPlans(s: State)
    requires s.frames.On? && s.frames.top.AfterRelease?
    ensures SamePlans(s, FinishRelease(s))
  {
    hide Unmagic;
    UnmagicFrame(Pop(s));
  }

  lemma ThrowStep(s: State)
    ensures Step(s, Throw) == s || (s.frames.On? && Step(s, Throw) == Pop(s)) ||
            (s.frames.On? && s.frames.top.Restoring? && Step(s, Throw) == Drop(Pop(s), s.frames.top.storage))
  {
    hide Drop, Pop, Active, Begin, EndArguments, RunCall, FinishConstruct, ChangeBlessing, LeaveGuard, FinishRelease, NewStorage, FinishRestore, BeginClear, FinishClear;
  }

  lemma ThrowPlans(s: State)
    ensures SamePlans(s, Step(s, Throw))
  {
    ThrowStep(s);
    hide Drop, Step;
    if s.frames.On? && s.frames.top.Restoring? { DropSameFrames(Pop(s), s.frames.top.storage); }
  }

  lemma UnkeepPlans(s: State)
    ensures SamePlans(s, Step(s, Unkeep))
  {
    hide Drop;
    if s.frames.On? && s.frames.top.Temp? { DropSameFrames(Pop(s), s.frames.top.storage); }
  }

  lemma FinishConstructShape(s: State)
    requires s.frames.On? && s.frames.top.Ctor? && s.frames.top.todo == []
    ensures SamePlans(s, FinishConstruct(s))
  {
    hide BlessingKept;
    if BlessingKept(s, s.frames.top) { assert s.magic.Some? by { BlessingHasMagic(s, s.frames.top); } }
  }

  lemma BlessingHasMagic(s: State, f: Frame)
    requires f.Ctor? && BlessingKept(s, f)
    ensures s.magic.Some?
  {}

  lemma ConstructedPlans(s: State)
    ensures SamePlans(s, Step(s, Constructed))
  {
    hide FinishConstruct;
    if s.frames.On? && s.frames.top.Ctor? && s.frames.top.todo == [] { FinishConstructShape(s); }
  }

  lemma BlessedPlans(s: State)
    ensures SamePlans(s, Step(s, Blessed))
  {}

  lemma ReturnPlans(s: State)
    ensures SamePlans(s, Step(s, Return))
  {}

  lemma RefPlans(s: State)
    ensures SamePlans(s, Step(s, AddRef)) && SamePlans(s, Step(s, DropRef))
  {
    hide Active;
  }

  /** Only a constructor, a call and a restore touch the plans and what was called. */
  lemma PlansUntouched(s: State, e: Event)
    requires !e.NewObject? && !e.ArgumentsRead? && !e.Restore? && !e.Call?
    ensures SamePlans(s, Step(s, e))
  {
    hide LeaveGuard, FinishRelease, FinishRestore, FinishClear, ChangeBlessing, BeginClear, Drop, Hold, Active, Refs, StackRefs, Visible, RunCall, FinishConstruct, NewStorage, Begin, EndArguments;
    match e
    case Leave => if s.frames.On? && s.frames.top.Guard? { LeaveGuardShape(s); }
    case DestructorsDone => if s.frames.On? && s.frames.top.AfterRelease? { ReleasedPlans(s); }
    case Bless(target, hook) => ReleasePlans(s, target, hook);
    case Destroy(hook) => ReleasePlans(s, None, hook);
    case Keep => if Visible(s).Some? { HoldFrame(s, Visible(s).value); }
    case Restored => if s.frames.On? && s.frames.top.Restoring? { FinishRestoreShape(s); }
    case Cleared => if s.frames.On? && s.frames.top.Clearing? { ClearPlans(s); }
    case Throw =>
      hide Step;
      ThrowPlans(s);
    case Unkeep =>
      hide Step;
      UnkeepPlans(s);
    case Constructed =>
      hide Step;
      ConstructedPlans(s);
    case Blessed =>
      hide Step;
      BlessedPlans(s);
    case Return =>
      hide Step;
      ReturnPlans(s);
    case AddRef =>
      hide Step;
      RefPlans(s);
    case DropRef =>
      hide Step;
      RefPlans(s);
  }

  /** One more plan with nothing called yet. */
  lemma NewPlanOk(s: State, t: State, x: Storage, ds: seq<Decl>)
    requires PlansOk(s) && t.made == s.made[x := ds] && t.ran == s.ran[x := []]
    ensures PlansOk(t)
  {
    hide Plan;
    forall y | y in t.made || y in t.ran ensures FollowsPlan(t, y) {
      if y != x { assert FollowsPlan(s, y); }
    }
  }

  lemma BeginPlans(s: State, byName: bool, stash: Stash, ds: seq<Decl>)
    requires PlansOk(s)
    ensures PlansOk(Begin(s, byName, stash, ds))
  {
    hide Construct, PlansOk;
    ConstructShape(s, true, stash, ds);
    NewPlanOk(s, Construct(s, true, stash, ds), s.next, ds);
    SamePlansOk(s, Push(s, Arguments(stash, ds)));
  }

  lemma CallPlans(s: State)
    requires PlansOk(s) && FramesOk(s)
    requires s.frames.On? && s.frames.top.Ctor? && s.frames.top.todo != [] && s.frames.top.storage in s.ran
    ensures PlansOk(RunCall(s))
  {
    hide Plan;
    var f, t := s.frames.top, RunCall(s);
    var x := f.storage;
    assert s.ran[x] + f.todo == Plan(s.made[x]);
    assert s.ran[x] + f.todo == s.ran[x] + [f.todo[0]] + f.todo[1..];
    forall y | y in t.made || y in t.ran ensures FollowsPlan(t, y) { assert FollowsPlan(s, y); }
  }

  lemma StepKeepsPlans(s: State, e: Event)
    requires Inv(s) && PlansOk(s)
    ensures PlansOk(Step(s, e))
  {
    hide Inv, StoragesOk, MarkerOk, FramesOk, DeadOk, PlansOk, Begin, Construct, RunCall, Plan, Refs;
    if e.NewObject? {
      BeginPlans(s, e.byName, e.stash, e.classes);
    } else if e.ArgumentsRead? {
      if s.frames.On? && s.frames.top.Arguments? {
        var f, t := s.frames.top, Pop(s);
        ConstructShape(t, false, f.stash, f.classes);
        NewPlanOk(s, Construct(t, false, f.stash, f.classes), s.next, f.classes);
      }
    } else if e.Restore? {
      NewPlanOk(s, Push(NewStorage(s, []), Restoring(s.next, e.hydrate, e.stash)), s.next, []);
    } else if e.Call? {
      if s.frames.On? && s.frames.top.Ctor? && s.frames.top.todo != [] && s.frames.top.storage in s.ran {
        assert FramesOk(s) by { InvFrames(s); }
        CallPlans(s);
      }
    } else {
      PlansUntouched(s, e);
      SamePlansOk(s, Step(s, e));
    }
  }

  lemma InvFrames(s: State)
    requires Inv(s)
    ensures FramesOk(s)
  {}

  lemma {:induction false} RunKeepsPlans(stash: Option<Stash>, es: seq<Event>)
    ensures PlansOk(Run(Initial(stash), es))
  {
    if es != [] {
      var n := |es| - 1;
      RunKeepsPlans(stash, es[..n]);
      RunKeepsInv(stash, es[..n]);
      hide Inv, PlansOk, Step;
      StepKeepsPlans(Run(Initial(stash), es[..n]), es[n]);
    }
  }

  /** In every run the calls made for a storage so far are, in order, the first ones of
      the list for its classes: all initialisers before any ADJUST block. */
  lemma InitialisersFirst(stash: Option<Stash>, es: seq<Event>, x: Storage)
    requires x in Run(Initial(stash), es).ran
    ensures var s := Run(Initial(stash), es);
            x in s.made && exists calls :: CallsFor(calls, s.made[x]) && s.ran[x] <= calls
  {
    RunKeepsPlans(stash, es);
    var s := Run(Initial(stash), es);
    assert FollowsPlan(s, x);
    hide Run, Plan, CallsFor;
    PlanCalls(s.made[x]);
  }

  // ----- the restore that attaches

  lemma RunNext(s: State, es: seq<Event>, e: Event)
    ensures Run(s, es + [e]) == Step(Run(s, es), e)
  {
    assert (es + [e])[..|es|] == es;
  }

  /** A ready object with one storage, and what it becomes while its fields are released. */
  function ReadyObject(a: Stash): State {
    State(Some(Magic(0, Some(0), Ready)), [], 1, map[0 := 1], 1, map[], map[], map[], Some(a), 1, true, map[0 := []], map[0 := []], Bottom)
  }

  function NewbornObject(a: Stash): State {
    ReadyObject(a).(magic := Some(Magic(0, Some(0), Initializing)), rc := map[0 := 2],
                    frames := On(Ctor(0, a, []), On(Guard(0, false, true), Bottom)))
  }

  lemma Creates(a: Stash)
    ensures Step(Initial(Some(a)), NewObject(true, a, [])) == NewbornObject(a)
  {
    assert Plan([]) == [];
  }

  lemma Completes(a: Stash)
    ensures Step(Step(NewbornObject(a), Constructed), Leave) == ReadyObject(a)
  {
    var s := Step(NewbornObject(a), Constructed);
    assert s == ReadyObject(a).(rc := map[0 := 2], frames := On(Guard(0, false, true), Bottom));
  }

  lemma RunThree(s: State, a: Event, b: Event, c: Event)
    ensures Run(s, [a, b, c]) == Step(Step(Step(s, a), b), c)
  {
    hide Step;
    assert [a, b, c][..2] == [a, b] && [a, b][..1] == [a] && [a][..0] == [];
    assert Run(s, [a]) == Step(Run(s, []), a);
    assert Run(s, [a, b]) == Step(Run(s, [a]), b);
  }

  lemma MakesReady(a: Stash)
    ensures Run(Initial(Some(a)), [NewObject(true, a, []), Constructed, Leave]) == ReadyObject(a)
  {
    hide Run, Step;
    RunThree(Initial(Some(a)), NewObject(true, a, []), Constructed, Leave);
    Creates(a);
    Completes(a);
  }

  lemma ReleasesFields(a: Stash, b: Stash)
    requires a != b
    ensures var t := Step(Step(ReadyObject(a), Bless(Some(b), false)), Leave);
            && t.magic == Some(Magic(0, None, ReleasingFields)) && t.alive && t.stash == Some(a)
            && t.frames == On(AfterRelease(Some(0), false), On(Blessing(Some(b)), Bottom))
  {
    var s := ReadyObject(a);
    var u := Step(s, Bless(Some(b), false));
    assert u.frames == On(Guard(0, false, false), On(Blessing(Some(b)), Bottom));
    assert u.magic == Some(Magic(0, Some(0), Releasing)) && u.stash == Some(a) && u.alive;
    hide Drop, Rc;
    ReleaseFieldsMagic(u);
    ReleaseFieldsFrame(u);
    LeaveGuardShape(u);
    DetachSameFrames(Pop(u));
  }

  lemma UnblessAndRestore(t: State, b: Stash)
    requires Active(t) && t.stash.Some? && t.magic.Some? && t.magic.value.marker == ReleasingFields
    ensures var u := Step(Step(t, Bless(None, false)), Restore(false, b));
            u.magic == t.magic && u.stash == None && u.frames == On(Restoring(t.next, false, b), t.frames)
  {
    hide Rc;
    assert Step(t, Bless(None, false)) == t.(stash := None);
    assert Active(t.(stash := None));
  }

  /** Such a restore exists: the object is reblessed; while the fields of the released
      storage are destroyed its blessing is removed and the payload is restored. */
  lemma RestoreAttachesDuringRelease(a: Stash, b: Stash)
    requires a != b
    ensures exists es: seq<Event> :: var s := Run(Initial(Some(a)), es);
      s.magic.Some? && s.magic.value.marker == ReleasingFields && Attaches(s, Step(s, Restored))
  {
    var s0 := Initial(Some(a));
    var e0 := [NewObject(true, a, []), Constructed, Leave];
    var e1 := e0 + [Bless(Some(b), false)];
    var e2 := e1 + [Leave];
    var e3 := e2 + [Bless(None, false)];
    var e4 := e3 + [Restore(false, b)];
    hide Run, Step;
    RunNext(s0, e0, Bless(Some(b), false));
    RunNext(s0, e1, Leave);
    RunNext(s0, e2, Bless(None, false));
    RunNext(s0, e3, Restore(false, b));
    MakesReady(a);
    ReleasesFields(a, b);
    var s2, s4 := Run(s0, e2), Run(s0, e4);
    assert Active(s2);
    UnblessAndRestore(s2, b);
    RestoredStep(s4);
    FinishRestoreMagic(s4);
    assert Attaches(s4, Step(s4, Restored));
  }

  // ----- a constructor whose arguments construct the same object

  function Reading(a: Stash, below: Frames): Frames {
    On(Arguments(a, []), below)
  }

  /** The object while the inner constructor is done and the outer one still reads. */
  function InnerDone(a: Stash): State {
    ReadyObject(a).(frames := Reading(a, Bottom))
  }

  lemma BeginsTwice(a: Stash)
    ensures Step(Step(Initial(Some(a)), NewObject(false, a, [])), NewObject(false, a, []))
            == Initial(Some(a)).(frames := Reading(a, Reading(a, Bottom)))
  {
    hide Construct;
    var s := Initial(Some(a)).(frames := Reading(a, Bottom));
    assert Step(Initial(Some(a)), NewObject(false, a, [])) == s;
    assert Active(s);
  }

  function InnerNewborn(a: Stash): State {
    NewbornObject(a).(frames := On(Ctor(0, a, []), On(Guard(0, false, false), Reading(a, Bottom))))
  }

  lemma InnerBegins(a: Stash)
    ensures Step(Initial(Some(a)).(frames := Reading(a, Reading(a, Bottom))), ArgumentsRead) == InnerNewborn(a)
  {
    assert Plan([]) == [];
  }

  lemma InnerEnds(a: Stash)
    ensures Step(Step(InnerNewborn(a), Constructed), Leave) == InnerDone(a)
  {
    var s := Step(InnerNewborn(a), Constructed);
    assert s == ReadyObject(a).(rc := map[0 := 2], frames := On(Guard(0, false, false), Reading(a, Bottom)));
  }

  lemma OuterAttaches(a: Stash)
    ensures var t := Step(InnerDone(a), ArgumentsRead);
            t.magic == Some(Magic(1, Some(1), Initializing)) && t.shadowed == [0]
  {
    assert Plan([]) == [];
    hide Rc;
  }

  /** The constructor of an existing object tests for a storage before it reads its
      arguments; code that this runs can construct the object, which then gets a
      second storage that hides the first, finished one. */
  lemma ConstructedTwice(a: Stash)
    ensures var es := [NewObject(false, a, []), NewObject(false, a, []), ArgumentsRead, Constructed, Leave];
            && Run(Initial(Some(a)), es) == InnerDone(a) && IsReady(InnerDone(a)) && InnerDone(a).magic.value.obj == Some(0)
            && var t := Run(Initial(Some(a)), es + [ArgumentsRead]);
               t.magic == Some(Magic(1, Some(1), Initializing)) && t.shadowed == [0]
  {
    var s0 := Initial(Some(a));
    var e0 := [NewObject(false, a, []), NewObject(false, a, []), ArgumentsRead];
    var e1 := e0 + [Constructed];
    var e2 := e1 + [Leave];
    assert e2 == [NewObject(false, a, []), NewObject(false, a, []), ArgumentsRead, Constructed, Leave];
    hide Run, Step;
    RunThree(s0, NewObject(false, a, []), NewObject(false, a, []), ArgumentsRead);
    RunNext(s0, e0, Constructed);
    RunNext(s0, e1, Leave);
    RunNext(s0, e2, ArgumentsRead);
    BeginsTwice(a);
    InnerBegins(a);
    InnerEnds(a);
    OuterAttaches(a);
  }

  /** A step gives the referent a second storage only at that point, and then the first
      one is finished or has failed, or at the end of a restore into a payload that has
      lost its blessing; a storage that is being released is never hidden. */
  lemma HiddenStorage(stash: Option<Stash>, es: seq<Event>, e: Event)
    requires var s := Run(Initial(stash), es); s.magic.Some? && s.magic.value.obj.Some? && Attaches(s, Step(s, e))
    ensures var s := Run(Initial(stash), es);
            && s.frames.On?
            && ((e == ArgumentsRead && s.frames.top.Arguments? && s.magic.value.marker in {Ready, Failed})
                || (e == Restored && s.frames.top.Restoring? && s.stash == None && s.magic.value.marker in {Initializing, Ready, Failed}))
  {
    RunKeepsInv(stash, es);
    var s := Run(Initial(stash), es);
    hide Run, StoragesOk, FramesOk, DeadOk, Step;
    MagicThrough(s, e);
  }
}

/** What a TEARDOWN hook finds while it runs. */
module StorageHooks {
  import opened ObjectLayout
  import opened StorageLifecycle
  import opened StorageSafety
  import opened StorageTheorems

  function Hooks(fs: Frames): nat {
    if fs.Bottom? then 0 else (if fs.top.Hook? then 1 else 0) + Hooks(fs.below)
  }

  /** Below the operations that only keep a storage. */
  function PastTemps(fs: Frames): Frames {
    if fs.On? && fs.top.Temp? then PastTemps(fs.below) else fs
  }

  /** A hook is running for the storage of the guard right below it. */
  ghost predicate HookFor(fs: Frames, x: Storage) {
    fs.On? && fs.top.Hook? && fs.below.On? && IsGuard(fs.below.top, x) && Hooks(fs.below) == 0
  }

  /** While a hook is on the stack, its storage is still attached and being released,
      and nothing but kept storages lies above it. */
  ghost predicate HookOk(s: State) {
    Hooks(s.frames) == 0 ||
    (s.magic.Some? && s.magic.value.obj.Some? && s.magic.value.marker == Releasing
     && HookFor(PastTemps(s.frames), s.magic.value.obj.value))
  }

  // ----- without a hook on the stack

  /** Frames that add no hook. */
  predicate NoNewHook(s: State, t: State) {
    Hooks(t.frames) <= Hooks(s.frames)
  }

  lemma GuardGoneHooks(s: State)
    requires s.frames.On? && s.frames.top.Guard?
    ensures NoNewHook(s, LeaveGuard(s))
  {
    hide LeaveGuard;
    LeaveGuardShape(s);
  }

  lemma TopGoneHooks(s: State)
    requires s.frames.On?
    ensures s.frames.top.AfterRelease? ==> NoNewHook(s, FinishRelease(s))
    ensures s.frames.top.Clearing? ==> NoNewHook(s, FinishClear(s))
    ensures s.frames.top.Restoring? ==> NoNewHook(s, FinishRestore(s))
    ensures s.frames.top.Restoring? || s.frames.top.Temp? ==> NoNewHook(s, Drop(Pop(s), s.frames.top.storage))
  {
    hide Unmagic, FinishRestore, Refs, Drop;
    UnmagicFrame(Pop(s));
    if s.magic.Some? && s.magic.value.obj.Some? { UnmagicFrame(TakeStorage(Pop(s))); }
    if s.frames.top.Restoring? { FinishRestoreShape(s); }
    if s.frames.top.Restoring? || s.frames.top.Temp? { DropSameFrames(Pop(s), s.frames.top.storage); }
  }

  lemma ConstructHooks(s: State, byName: bool, stash: Stash, ds: seq<Decl>)
    ensures NoNewHook(s, Construct(s, byName, stash, ds))
  {
    hide Rc, Plan;
    var g := On(Guard(s.next, false, byName), s.frames);
    assert Construct(s, byName, stash, ds).frames == On(Ctor(s.next, stash, Plan(ds)), g);
    assert Hooks(g) == Hooks(s.frames);
  }

  lemma BeginHooks(s: State, byName: bool, stash: Stash, ds: seq<Decl>)
    ensures NoNewHook(s, Begin(s, byName, stash, ds))
  {
    hide Construct;
    ConstructHooks(s, true, stash, ds);
  }

  /** A release with a hook puts that hook right above its guard. */
  lemma ReleaseHooks(s: State, destroying: bool, hook: bool)
    requires Releasable(s) && Hooks(s.frames) == 0
    ensures HookOk(Release(s, destroying, hook))
  {
    hide Release;
    ReleaseShape(s, destroying, hook);
    ReleaseMagic(s, destroying, hook);
  }

  lemma NoHookYet(s: State, e: Event)
    requires Hooks(s.frames) == 0
    ensures HookOk(Step(s, e))
  {
    hide Release, LeaveGuard, FinishRelease, FinishRestore, FinishClear, FinishConstruct, RunCall, Begin, Construct, NewStorage, Refs, Drop, Hold, ChangeBlessing, BeginClear;
    if s.frames.On? {
      TopGoneHooks(s);
      ConstructorHooks(s);
      if s.frames.top.Guard? { GuardGoneHooks(s); }
    }
    match e
    case NewObject(byName, stash, ds) => BeginHooks(s, byName, stash, ds);
    case ArgumentsRead => if s.frames.On? && s.frames.top.Arguments? { ConstructHooks(Pop(s), false, s.frames.top.stash, s.frames.top.classes); }
    case Bless(target, hook) => BlessHooks(s, target, hook);
    case Destroy(hook) => ClearHooks(s, hook);
    case Keep => if Visible(s).Some? { HoldFrame(s, Visible(s).value); }
    case Restore(hydrate, stash) => NewStorageHooks(s);
    case _ =>
  }

  lemma NewStorageHooks(s: State)
    ensures NewStorage(s, []).frames == s.frames
  {}

  lemma ConstructorHooks(s: State)
    requires s.frames.On?
    ensures s.frames.top.Ctor? && s.frames.top.todo == [] ==> NoNewHook(s, FinishConstruct(s))
    ensures s.frames.top.Ctor? && s.frames.top.todo != [] && s.frames.top.storage in s.ran ==> NoNewHook(s, RunCall(s))
  {}

  lemma BlessHooks(s: State, target: Option<Stash>, hook: bool)
    requires Hooks(s.frames) == 0
    ensures HookOk(ChangeBlessing(s, target, hook))
  {
    hide ChangeBlessing, Release;
    ChangeBlessingShape(s, target, hook);
    if Releasable(s) { ReleaseHooks(Push(s, Blessing(target)), false, hook); }
  }

  lemma ClearHooks(s: State, hook: bool)
    requires Hooks(s.frames) == 0
    ensures HookOk(BeginClear(s, hook))
  {
    hide Release;
    if Releasable(s) { ReleaseHooks(Push(s, Clearing), true, hook); }
  }

  // ----- with a hook on the stack

  /** While a hook runs, or a storage is kept above it, only that can end, or another storage be kept. */
  lemma HookStays(s: State, e: Event)
    requires Inv(s) && HookOk(s) && Hooks(s.frames) > 0
    ensures HookOk(Step(s, e))
  {
    hide StoragesOk, FramesOk, DeadOk, LeaveGuard, FinishRelease, FinishRestore, FinishClear, FinishConstruct, RunCall, Begin, EndArguments, NewStorage, Release, Drop, Hold;
    HookOnTop(s);
    match e
    case Bless(target, hook) => BlessRefused(s, target, hook);
    case Keep => if Visible(s).Some? { HoldFrame(s, Visible(s).value); }
    case Unkeep => if s.frames.top.Temp? { DropSameFrames(Pop(s), s.frames.top.storage); DropMagic(Pop(s), s.frames.top.storage); }
    case Destroy(hook) => HookHoldsReferent(s.frames);
    case _ =>
  }

  lemma HookOnTop(s: State)
    requires HookOk(s) && Hooks(s.frames) > 0
    ensures s.frames.On? && (s.frames.top.Hook? || s.frames.top.Temp?)
    ensures s.frames.top.Hook? ==> Hooks(s.frames.below) == 0
  {}

  lemma BlessRefused(s: State, target: Option<Stash>, hook: bool)
    requires MarkerOk(s) && s.magic.Some? && s.magic.value.marker == Releasing
    ensures ChangeBlessing(s, target, hook) == s
  {
    hide Guarded, CtorFirst, GuardFirst, ReleaseFirst, Ctors, Release;
  }

  lemma {:induction false} HookHoldsReferent(fs: Frames)
    requires Hooks(fs) > 0
    ensures StackRefs(fs) > 0
  {
    if !fs.top.Hook? { HookHoldsReferent(fs.below); }
  }

  lemma {:induction false} RunKeepsHook(stash: Option<Stash>, es: seq<Event>)
    ensures HookOk(Run(Initial(stash), es))
  {
    if es != [] {
      var front, e := es[..|es| - 1], es[|es| - 1];
      RunKeepsHook(stash, front);
      RunKeepsInv(stash, front);
      hide Inv, HookOk, Step;
      if Hooks(Run(Initial(stash), front).frames) == 0 {
        NoHookYet(Run(Initial(stash), front), e);
      } else {
        HookStays(Run(Initial(stash), front), e);
      }
    }
  }

  /** In every run, TEARDOWN runs with the storage it is about, and the blessing it had,
      still in place; and no second hook runs inside it. */
  lemma HookSeesStorage(stash: Option<Stash>, es: seq<Event>)
    requires Run(Initial(stash), es).frames.On? && Run(Initial(stash), es).frames.top.Hook?
    ensures var s := Run(Initial(stash), es);
            && s.stash.Some? && s.frames.below.On? && s.frames.below.top.Guard?
            && Visible(s) == Some(s.frames.below.top.storage)
            && Hooks(s.frames.below) == 0
  {
    RunKeepsHook(stash, es);
    RunKeepsInv(stash, es);
    hide Run, StoragesOk, FramesOk, DeadOk;
  }

  /** What runs under a hook cannot change the blessing. */
  lemma HookKeepsBlessing(stash: Option<Stash>, es: seq<Event>, e: Event)
    requires Hooks(Run(Initial(stash), es).frames) > 0
    ensures Step(Run(Initial(stash), es), e).stash == Run(Initial(stash), es).stash
  {
    RunKeepsHook(stash, es);
    RunKeepsInv(stash, es);
    hide Run;
    BlessingFixed(Run(Initial(stash), es), e);
  }

  lemma BlessingFixed(s: State, e: Event)
    requires Inv(s) && HookOk(s) && Hooks(s.frames) > 0
    ensures Step(s, e).stash == s.stash
  {
    hide StoragesOk, FramesOk, DeadOk, LeaveGuard, FinishRelease, FinishRestore, FinishClear, FinishConstruct, RunCall, Begin, EndArguments, Release, Hold;
    HookOnTop(s);
    match e
    case Bless(target, hook) => BlessRefused(s, target, hook);
    case Destroy(hook) => HookHoldsReferent(s.frames);
    case Keep => if Visible(s).Some? { HoldFrame(s, Visible(s).value); }
    case _ =>
  }
}

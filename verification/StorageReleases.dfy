/** What becomes of an object when nothing interferes: it is constructed, reblessed, or
    destroyed, and each time exactly one thing happens to its storage. */
module StorageReleases {
  import opened ObjectLayout
  import opened StorageLifecycle
  import opened StorageSafety
  import opened StorageTheorems

  /** Nothing runs, and the object has a finished or failed storage. */
  predicate Settled(s: State, x: Storage) {
    && s.alive && s.frames == Bottom && s.magic.Some? && s.magic.value.obj == Some(x)
    && (s.magic.value.marker == Ready || s.magic.value.marker == Failed)
  }

  /** A hook, if there is one, runs and returns. */
  function HookDone(s: State, hook: bool): State {
    if hook then Step(s, Return) else s
  }

  lemma ReleaseIs(s: State, destroying: bool, hook: bool)
    requires Releasable(s)
    ensures var t, x := Release(s, destroying, hook), s.magic.value.obj.value;
            t == s.(rc := t.rc, magic := Some(s.magic.value.(marker := Releasing)), torn := Add(s.torn, x),
                    frames := if hook then On(Hook, On(Guard(x, destroying, false), s.frames)) else On(Guard(x, destroying, false), s.frames))
  {
    hide Rc;
  }

  lemma ReturnIs(s: State)
    requires s.frames.On? && s.frames.top.Hook?
    ensures Step(s, Return) == Pop(s)
  {}

  /** The storage has been marked, and its guard is on top; the hook is over. */
  predicate BeingReleased(s: State, t: State, x: Storage, destroying: bool, below: Frames)
    requires s.magic.Some?
  {
    t == s.(rc := t.rc, magic := Some(s.magic.value.(marker := Releasing)), torn := Add(s.torn, x),
            frames := On(Guard(x, destroying, false), below))
  }

  lemma DestroyBegins(s: State, x: Storage, hook: bool)
    requires Settled(s, x) && s.held == 0 && s.stash.Some?
    ensures hook ==> Step(s, Destroy(true)).frames.On? && Step(s, Destroy(true)).frames.top == Hook
    ensures BeingReleased(s, HookDone(Step(s, Destroy(hook)), hook), x, true, On(Clearing, Bottom))
  {
    hide Release;
    ReleaseIs(Push(s, Clearing), true, hook);
    var t := Step(s, Destroy(hook));
    assert t == Release(Push(s, Clearing), true, hook);
    if hook { ReturnIs(t); }
  }

  lemma BlessBegins(s: State, x: Storage, target: Option<Stash>, hook: bool)
    requires Settled(s, x) && s.held > 0 && s.stash.Some? && s.stash != target
    ensures hook ==> Step(s, Bless(target, true)).frames.On? && Step(s, Bless(target, true)).frames.top == Hook
    ensures BeingReleased(s, HookDone(Step(s, Bless(target, hook)), hook), x, false, On(Blessing(target), Bottom))
  {
    hide Release;
    ReleaseIs(Push(s, Blessing(target)), false, hook);
    var t := Step(s, Bless(target, hook));
    assert t == Release(Push(s, Blessing(target)), false, hook);
    if hook { ReturnIs(t); }
  }

  // ----- destruction

  lemma LetGoIs(s: State)
    requires s.frames.On? && s.frames.top.Guard?
    ensures var t := LetGo(s);
            && (t == s.(rc := t.rc, freed := t.freed, frames := s.frames.below)
                || (Rc(s, s.frames.top.storage) == 1 &&
                    t == s.(rc := t.rc, freed := t.freed, frames := On(AfterRelease(None, s.frames.top.destroying), s.frames.below))))
  {}

  /** The guard and the magic hold the storage. */
  lemma GuardedTwice(s: State, x: Storage)
    requires StoragesOk(s) && s.frames.On? && s.frames.top.Guard? && s.frames.top.storage == x
    requires s.magic.Some? && s.magic.value.obj == Some(x)
    ensures Rc(s, x) >= 2
  {
    assert StorageOk(s, x);
    assert StackHolds(s.frames, x) == StackHolds(s.frames.below, x) + FrameHolds(s.frames.top, x);
    hide Restores, Ctors, Copies, Rc;
  }

  /** The storage of the last reference is kept for whoever frees the object. */
  lemma GuardRetires(s: State, x: Storage)
    requires Inv(s) && s.frames == On(Guard(x, true, false), On(Clearing, Bottom)) && s.held == 0
    requires s.magic.Some? && s.magic.value.obj == Some(x) && s.magic.value.marker == Releasing
    ensures var t := Step(s, Leave);
            t == s.(rc := t.rc, freed := t.freed, magic := Some(s.magic.value.(marker := Released)), frames := On(Clearing, Bottom))
  {
    GuardedTwice(s, x);
    assert Detaches(s, s.frames.top);
    assert StackRefs(s.frames.below) == StackRefs(Bottom);
    var u := Mark(s, Released);
    LetGoIs(u);
    hide LetGo, Inv, StoragesOk;
    assert Retires(s, s.frames.top);
    assert Step(s, Leave) == LetGo(u);
  }

  lemma ClearTakes(s: State, x: Storage)
    requires s.frames == On(Clearing, Bottom) && s.held == 0
    requires s.magic.Some? && s.magic.value.obj == Some(x) && s.magic.value.marker == Released
    ensures var t := Step(s, Cleared);
            t == s.(rc := t.rc, freed := t.freed, handed := Add(s.handed, x), magic := None, shadowed := [],
                    alive := false, stash := None, frames := Bottom)
  {
    hide Unmagic;
    UnmagicFrame(TakeStorage(Pop(s)));
    assert Refs(s) == 0;
  }

  /** An object whose last reference goes is torn down once, with TEARDOWN running if it
      has one; then its storage is handed over unfreed, and everything else is freed. */
  lemma Destruction(stash: Option<Stash>, es: seq<Event>, x: Storage, hook: bool)
    ensures var s := Run(Initial(stash), es);
            Settled(s, x) && s.held == 0 && s.stash.Some? ==>
              var t := Step(Step(HookDone(Step(s, Destroy(hook)), hook), Leave), Cleared);
              && !t.alive && t.frames == Bottom && t.magic == None
              && Times(t.torn, x) == 1 && Times(t.handed, x) == 1 && Times(t.freed, x) == 0
              && (forall y :: y != x ==> Times(t.torn, y) == Times(s.torn, y) && Times(t.handed, y) == Times(s.handed, y))
  {
    var s := Run(Initial(stash), es);
    RunKeepsInv(stash, es);
    hide Run;
    if Settled(s, x) && s.held == 0 && s.stash.Some? { DestroyedOnce(s, x, hook); }
  }

  lemma HookDoneInv(s: State, hook: bool)
    requires Inv(s)
    ensures Inv(HookDone(s, hook))
  {
    StepKeepsInv(s, Return);
    hide Inv, Step;
  }

  lemma DestroyedOnce(s: State, x: Storage, hook: bool)
    requires Inv(s) && Settled(s, x) && s.held == 0 && s.stash.Some?
    ensures var t := Step(Step(HookDone(Step(s, Destroy(hook)), hook), Leave), Cleared);
            && Inv(t) && !t.alive && t.frames == Bottom && t.magic == None
            && Times(t.torn, x) == 1 && Times(t.handed, x) == 1 && Times(t.freed, x) == 0
            && (forall y :: y != x ==> Times(t.torn, y) == Times(s.torn, y) && Times(t.handed, y) == Times(s.handed, y))
  {
    SettledFacts(s, x);
    DestroyBegins(s, x, hook);
    StepKeepsInv(s, Destroy(hook));
    HookDoneInv(Step(s, Destroy(hook)), hook);
    var t1 := HookDone(Step(s, Destroy(hook)), hook);
    hide Inv, Step, HookDone, Holders;
    GuardRetires(t1, x);
    StepKeepsInv(t1, Leave);
    var t2 := Step(t1, Leave);
    ClearTakes(t2, x);
    StepKeepsInv(t2, Cleared);
    FinalFate(Step(t2, Cleared), x);
  }

  lemma SettledFacts(s: State, x: Storage)
    requires Inv(s) && Settled(s, x)
    ensures x < s.next && Times(s.torn, x) == 0 && Times(s.handed, x) == 0 && Copies(s.shadowed, x) == 0
  {
    assert StorageOk(s, x);
    hide StoragesOk, FramesOk, DeadOk;
  }

  lemma FinalFate(s: State, x: Storage)
    requires Inv(s) && s.frames == Bottom && s.magic == None && s.shadowed == [] && x < s.next
    ensures Times(s.freed, x) == if Times(s.handed, x) == 0 then 1 else 0
  {
    assert StorageOk(s, x);
  }

  // ----- reblessing

  /** Neither retired nor kept: the fields are released. */
  lemma GuardReleases(s: State, x: Storage, destroying: bool, below: Frames)
    requires s.frames == On(Guard(x, destroying, false), below) && (destroying ==> Refs(s) != 1)
    requires s.magic.Some? && s.magic.value.obj == Some(x) && s.magic.value.marker == Releasing
    ensures var t := Step(s, Leave);
            t == s.(rc := t.rc, freed := t.freed, magic := Some(s.magic.value.(obj := None, marker := ReleasingFields)),
                    frames := On(AfterRelease(Some(s.magic.value.id), destroying), below))
  {
    hide Drop;
    var m := Some(s.magic.value.(obj := None, marker := ReleasingFields));
    DropFrame(Pop(s).(magic := m), x);
    DropFrame(Detach(Pop(s)), x);
    assert Detaches(s, s.frames.top) && !Retires(s, s.frames.top) && !Preserves(s, s.frames.top);
    assert Step(s, Leave) == ReleaseFields(s);
  }

  lemma ReleaseEnds(s: State, id: nat, destroying: bool, below: Frames)
    requires s.frames == On(AfterRelease(Some(id), destroying), below)
    requires s.magic.Some? && s.magic.value.id == id && s.magic.value.marker == ReleasingFields
    ensures var t := Step(s, DestructorsDone); t == s.(rc := t.rc, freed := t.freed, magic := None, shadowed := [], frames := below)
  {
    hide Unmagic;
    UnmagicFrame(Pop(s));
  }

  lemma BlessedIs(s: State, target: Option<Stash>)
    requires s.frames == On(Blessing(target), Bottom)
    ensures Step(s, Blessed) == s.(stash := target, frames := Bottom)
  {}

  /** A change of blessing tears the storage down once, with TEARDOWN running if there is
      one under the old blessing, frees it, and leaves an object without storage. */
  lemma Reblessing(stash: Option<Stash>, es: seq<Event>, x: Storage, target: Option<Stash>, hook: bool)
    ensures var s := Run(Initial(stash), es);
            Settled(s, x) && s.held > 0 && s.stash.Some? && s.stash != target ==>
              var t := Step(Step(Step(HookDone(Step(s, Bless(target, hook)), hook), Leave), DestructorsDone), Blessed);
              && t.alive && t.frames == Bottom && t.magic == None && t.stash == target && t.held == s.held
              && Times(t.torn, x) == 1 && Times(t.freed, x) == 1 && Times(t.handed, x) == 0
              && (forall y :: y != x ==> Times(t.torn, y) == Times(s.torn, y) && Times(t.handed, y) == Times(s.handed, y))
  {
    var s := Run(Initial(stash), es);
    RunKeepsInv(stash, es);
    hide Run;
    if Settled(s, x) && s.held > 0 && s.stash.Some? && s.stash != target { ReblessedOnce(s, x, target, hook); }
  }

  lemma ReblessedOnce(s: State, x: Storage, target: Option<Stash>, hook: bool)
    requires Inv(s) && Settled(s, x) && s.held > 0 && s.stash.Some? && s.stash != target
    ensures var t := Step(Step(Step(HookDone(Step(s, Bless(target, hook)), hook), Leave), DestructorsDone), Blessed);
            && t.alive && t.frames == Bottom && t.magic == None && t.stash == target && t.held == s.held
            && Times(t.torn, x) == 1 && Times(t.freed, x) == 1 && Times(t.handed, x) == 0
            && (forall y :: y != x ==> Times(t.torn, y) == Times(s.torn, y) && Times(t.handed, y) == Times(s.handed, y))
  {
    SettledFacts(s, x);
    BlessBegins(s, x, target, hook);
    StepKeepsInv(s, Bless(target, hook));
    HookDoneInv(Step(s, Bless(target, hook)), hook);
    var t1 := HookDone(Step(s, Bless(target, hook)), hook);
    hide Inv, Step, HookDone, Holders;
    GuardReleases(t1, x, false, On(Blessing(target), Bottom));
    StepKeepsInv(t1, Leave);
    var t2 := Step(t1, Leave);
    ReleaseEnds(t2, s.magic.value.id, false, On(Blessing(target), Bottom));
    StepKeepsInv(t2, DestructorsDone);
    var t3 := Step(t2, DestructorsDone);
    BlessedIs(t3, target);
    StepKeepsInv(t3, Blessed);
    FinalFate(Step(t3, Blessed), x);
  }

  // ----- resurrection

  /** TEARDOWN keeps a reference to the object it is called with, and returns. */
  function HookKeeps(s: State): State {
    Step(Step(s, AddRef), Return)
  }

  lemma HookKeepsIs(s: State, x: Storage)
    requires s.alive && s.frames == On(Hook, On(Guard(x, true, false), On(Clearing, Bottom))) && s.held == 0
    ensures HookKeeps(s) == s.(held := 1, frames := On(Guard(x, true, false), On(Clearing, Bottom)))
    ensures Refs(HookKeeps(s)) == 2
  {
    assert StackRefs(On(Clearing, Bottom)) == StackRefs(Bottom);
    ReturnIs(s.(held := 1));
  }

  lemma DestroyCallsHook(s: State, x: Storage)
    requires Settled(s, x) && s.held == 0 && s.stash.Some?
    ensures var t := Step(s, Destroy(true));
            t == s.(rc := t.rc, magic := Some(s.magic.value.(marker := Releasing)), torn := Add(s.torn, x),
                    frames := On(Hook, On(Guard(x, true, false), On(Clearing, Bottom))))
  {
    hide Release;
    ReleaseIs(Push(s, Clearing), true, true);
    assert Step(s, Destroy(true)) == Release(Push(s, Clearing), true, true);
  }

  lemma ClearGivesUp(s: State)
    requires s.frames == On(Clearing, Bottom) && s.held > 0
    ensures Step(s, Cleared) == s.(frames := Bottom)
  {}

  /** An object that TEARDOWN brings back lives on without its storage, which was torn
      down once and freed, not handed over. */
  lemma Resurrection(stash: Option<Stash>, es: seq<Event>, x: Storage)
    ensures var s := Run(Initial(stash), es);
            Settled(s, x) && s.held == 0 && s.stash.Some? ==>
              var t := Step(Step(Step(HookKeeps(Step(s, Destroy(true))), Leave), DestructorsDone), Cleared);
              && t.alive && t.frames == Bottom && t.magic == None && t.stash == s.stash && t.held == 1
              && Times(t.torn, x) == 1 && Times(t.freed, x) == 1 && Times(t.handed, x) == 0
  {
    var s := Run(Initial(stash), es);
    RunKeepsInv(stash, es);
    hide Run;
    if Settled(s, x) && s.held == 0 && s.stash.Some? { ResurrectedOnce(s, x); }
  }

  lemma ResurrectedOnce(s: State, x: Storage)
    requires Inv(s) && Settled(s, x) && s.held == 0 && s.stash.Some?
    ensures var t := Step(Step(Step(HookKeeps(Step(s, Destroy(true))), Leave), DestructorsDone), Cleared);
            && t.alive && t.frames == Bottom && t.magic == None && t.stash == s.stash && t.held == 1
            && Times(t.torn, x) == 1 && Times(t.freed, x) == 1 && Times(t.handed, x) == 0
  {
    SettledFacts(s, x);
    DestroyCallsHook(s, x);
    var t0 := Step(s, Destroy(true));
    HookKeepsIs(t0, x);
    StepKeepsInv(s, Destroy(true));
    StepKeepsInv(t0, AddRef);
    StepKeepsInv(Step(t0, AddRef), Return);
    var t1 := HookKeeps(t0);
    hide Inv, Step, Holders, Refs;
    GuardReleases(t1, x, true, On(Clearing, Bottom));
    StepKeepsInv(t1, Leave);
    var t2 := Step(t1, Leave);
    ReleaseEnds(t2, s.magic.value.id, true, On(Clearing, Bottom));
    StepKeepsInv(t2, DestructorsDone);
    var t3 := Step(t2, DestructorsDone);
    ClearGivesUp(t3);
    StepKeepsInv(t3, Cleared);
    FinalFate(Step(t3, Cleared), x);
  }

  // ----- construction

  function AfterCalls(s: State, n: nat): State {
    if n == 0 then s else Step(AfterCalls(s, n - 1), Call)
  }

  lemma {:induction false} AfterCallsInv(s: State, n: nat)
    requires Inv(s)
    ensures Inv(AfterCalls(s, n))
  {
    hide Inv, Step;
    if n > 0 {
      AfterCallsInv(s, n - 1);
      StepKeepsInv(AfterCalls(s, n - 1), Call);
    }
  }

  lemma CallIs(s: State, x: Storage, stash: Stash, todo: seq<StorageLifecycle.Call>, below: Frames)
    requires s.frames == On(Ctor(x, stash, todo), below) && x in s.ran && todo != []
    ensures Step(s, Call) == s.(ran := s.ran[x := s.ran[x] + [todo[0]]], frames := On(Ctor(x, stash, todo[1..]), below))
  {}

  lemma {:induction false} AfterCallsIs(s: State, x: Storage, stash: Stash, todo: seq<StorageLifecycle.Call>, below: Frames, n: nat)
    requires s.frames == On(Ctor(x, stash, todo), below) && x in s.ran && n <= |todo|
    ensures AfterCalls(s, n) == s.(ran := s.ran[x := s.ran[x] + todo[..n]], frames := On(Ctor(x, stash, todo[n..]), below))
  {
    hide Step;
    if n == 0 {
      assert s.ran[x] + todo[..0] == s.ran[x] && todo[0..] == todo;
      assert s.ran[x := s.ran[x]] == s.ran;
    } else {
      AfterCallsIs(s, x, stash, todo, below, n - 1);
      CallIs(AfterCalls(s, n - 1), x, stash, todo[n - 1..], below);
      assert todo[n - 1..][1..] == todo[n..];
      assert s.ran[x] + todo[..n - 1] + [todo[n - 1..][0]] == s.ran[x] + todo[..n];
    }
  }

  /** The constructor of a class is called, for the class or for an object of it without
      storage, and has read its arguments. */
  function Begun(s: State, byName: bool, stash: Stash, ds: seq<Decl>): State {
    if byName then Step(s, NewObject(true, stash, ds)) else Step(Step(s, NewObject(false, stash, ds)), ArgumentsRead)
  }

  lemma ConstructKeepsHeld(s: State, byName: bool, stash: Stash, ds: seq<Decl>)
    ensures Construct(s, byName, stash, ds).held == s.held
  {
    hide Plan, Drop, Hold;
    var x := s.next;
    HoldFrame(NewStorage(s, ds), x);
    DropFrame(Attach(NewStorage(s, ds), x, Initializing), x);
    HoldFrame(Drop(Attach(NewStorage(s, ds), x, Initializing), x).(stash := if byName then Some(stash) else s.stash), x);
  }

  lemma BegunIs(s: State, byName: bool, stash: Stash, ds: seq<Decl>)
    requires Active(s) && s.magic == None && (byName || s.stash == Some(stash))
    ensures Begun(s, byName, stash, ds) == Construct(s, byName, stash, ds)
  {
    hide Construct;
    if !byName { assert Pop(Push(s, Arguments(stash, ds))) == s; }
  }

  lemma GuardKeepsReady(s: State, x: Storage, byName: bool)
    requires Inv(s) && s.frames == On(Guard(x, false, byName), Bottom)
    requires s.magic.Some? && s.magic.value.obj == Some(x) && s.magic.value.marker == Ready
    ensures var t := Step(s, Leave); t == s.(rc := t.rc, freed := t.freed, frames := Bottom)
  {
    GuardedTwice(s, x);
    LetGoIs(s);
    hide LetGo, Inv, StoragesOk;
    assert Step(s, Leave) == LetGo(s);
  }

  lemma BegunInv(s: State, byName: bool, stash: Stash, ds: seq<Decl>)
    requires Inv(s)
    ensures Inv(Begun(s, byName, stash, ds))
  {
    hide Inv, Step;
    StepKeepsInv(s, NewObject(byName, stash, ds));
    if !byName { StepKeepsInv(Step(s, NewObject(false, stash, ds)), ArgumentsRead); }
  }

  lemma BegunReady(s: State, byName: bool, stash: Stash, ds: seq<Decl>)
    requires Active(s) && s.magic == None && (byName || s.stash == Some(stash))
    ensures var t, x := Begun(s, byName, stash, ds), s.next;
            && t.frames == On(Ctor(x, stash, Plan(ds)), On(Guard(x, false, byName), s.frames)) && x in t.ran && t.ran[x] == []
            && t.magic.Some? && t.magic.value.obj == Some(x) && t.stash == Some(stash)
            && t.held == s.held && t.torn == s.torn && t.next == x + 1 && t.alive == s.alive
  {
    BegunIs(s, byName, stash, ds);
    ConstructShape(s, byName, stash, ds);
    ConstructKeepsHeld(s, byName, stash, ds);
    hide Construct, Begun, Plan;
  }

  /** Nothing runs, and there is no storage. */
  predicate Bare(s: State) {
    s.alive && s.frames == Bottom && s.held > 0 && s.magic == None
  }

  lemma BareIsActive(s: State)
    requires Bare(s)
    ensures Active(s)
  {}

  /** The object holds one new storage, for which exactly the calls for its classes were made. */
  ghost predicate Usable(s: State, t: State, stash: Stash, ds: seq<Decl>) {
    && t.alive && t.frames == Bottom && t.held == s.held && t.stash == Some(stash)
    && t.magic.Some? && t.magic.value.obj == Some(s.next) && t.magic.value.marker == Ready
    && s.next in t.ran && CallsFor(t.ran[s.next], ds) && t.torn == s.torn && t.next == s.next + 1
  }

  lemma PlanSize(ds: seq<Decl>)
    ensures CallsFor(Plan(ds), ds) && |Plan(ds)| == |ds| + AdjustsBefore(ds, |ds|)
  {
    PlanCalls(ds);
  }

  lemma ConstructedOnce(s: State, byName: bool, stash: Stash, ds: seq<Decl>)
    requires Inv(s) && Bare(s) && (byName || s.stash == Some(stash))
    ensures var n := |ds| + AdjustsBefore(ds, |ds|);
            Usable(s, Step(Step(AfterCalls(Begun(s, byName, stash, ds), n), Constructed), Leave), stash, ds)
  {
    hide CallsFor, AdjustsBefore, Begun, Plan, Inv, AfterCalls, Step, Active;
    BareIsActive(s);
    PlanSize(ds);
    BegunInv(s, byName, stash, ds);
    BegunReady(s, byName, stash, ds);
    Undisturbed(Begun(s, byName, stash, ds), s.next, byName, stash, Plan(ds));
  }

  /** A constructor that nothing disturbs makes exactly the calls for its classes, and
      leaves a usable object with one new storage, blessed as it was asked for. */
  lemma Construction(before: Option<Stash>, es: seq<Event>, byName: bool, stash: Stash, ds: seq<Decl>)
    ensures var s, n := Run(Initial(before), es), |ds| + AdjustsBefore(ds, |ds|);
            Bare(s) && (byName || s.stash == Some(stash)) ==>
              Usable(s, Step(Step(AfterCalls(Begun(s, byName, stash, ds), n), Constructed), Leave), stash, ds)
  {
    RunKeepsInv(before, es);
    hide Run, Inv, Step, Usable, Begun, AfterCalls, AdjustsBefore;
    var s := Run(Initial(before), es);
    if Bare(s) && (byName || s.stash == Some(stash)) { ConstructedOnce(s, byName, stash, ds); }
  }

  /** From the start of its calls to the end of its guard. */
  lemma Undisturbed(t: State, x: Storage, byName: bool, class_: Stash, todo: seq<StorageLifecycle.Call>)
    requires Inv(t) && t.frames == On(Ctor(x, class_, todo), On(Guard(x, false, byName), Bottom)) && x in t.ran && t.ran[x] == []
    requires t.magic.Some? && t.magic.value.obj == Some(x) && t.stash == Some(class_)
    ensures var u := Step(Step(AfterCalls(t, |todo|), Constructed), Leave);
            u == t.(rc := u.rc, freed := u.freed, ran := t.ran[x := todo], magic := Some(t.magic.value.(marker := Ready)), frames := Bottom)
  {
    var below, n := On(Guard(x, false, byName), Bottom), |todo|;
    AfterCallsIs(t, x, class_, todo, below, n);
    AfterCallsInv(t, n);
    var t1 := AfterCalls(t, n);
    assert todo[..n] == todo && todo[n..] == [] && [] + todo == todo;
    StepKeepsInv(t1, Constructed);
    hide AfterCalls, Inv;
    var t2 := Step(t1, Constructed);
    assert t2 == t1.(magic := Some(t1.magic.value.(marker := Ready)), frames := below) by { BlessedAsAsked(t1, x, class_, below); }
    hide Step;
    GuardKeepsReady(t2, x, byName);
  }

  lemma BlessedAsAsked(t: State, x: Storage, class_: Stash, below: Frames)
    requires t.frames == On(Ctor(x, class_, []), below) && t.magic.Some? && t.magic.value.obj == Some(x) && t.stash == Some(class_)
    ensures Step(t, Constructed) == t.(magic := Some(t.magic.value.(marker := Ready)), frames := below)
  {}

  // ----- what leaves the storage alone, and restoring

  /** Blessing an object into what it is blessed into already is no change. */
  lemma BlessedAgain(s: State, hook: bool)
    ensures Step(s, Bless(s.stash, hook)) == s
  {}

  /** A restore that nothing disturbs leaves a usable object of the class, or of the class
      that an object without storage has, with one new storage for which nothing was called. */
  lemma Restoration(before: Option<Stash>, es: seq<Event>, hydrate: bool, stash: Stash)
    ensures var s := Run(Initial(before), es);
            Bare(s) && (if hydrate then s.stash.Some? else s.stash.None?) ==>
              var t := Step(Step(s, Restore(hydrate, stash)), Restored);
              && t.alive && t.frames == Bottom && t.held == s.held && t.stash == (if hydrate then s.stash else Some(stash))
              && t.magic.Some? && t.magic.value.obj == Some(s.next) && t.magic.value.marker == Ready
              && s.next in t.ran && t.ran[s.next] == [] && s.next in t.made && t.made[s.next] == [] && t.torn == s.torn
  {
    var s := Run(Initial(before), es);
    hide Run;
    if Bare(s) && (if hydrate then s.stash.Some? else s.stash.None?) {
      BareIsActive(s);
      RestoredOnce(s, hydrate, stash);
    }
  }

  lemma RestoredOnce(s: State, hydrate: bool, stash: Stash)
    requires Active(s) && s.magic == None && (if hydrate then s.stash.Some? else s.stash.None?)
    ensures var t := Step(Step(s, Restore(hydrate, stash)), Restored);
            t == s.(rc := t.rc, freed := t.freed, next := s.next + 1, made := s.made[s.next := []], ran := s.ran[s.next := []],
                    magic := Some(Magic(s.nextMagic, Some(s.next), Ready)), nextMagic := s.nextMagic + 1,
                    stash := if hydrate then s.stash else Some(stash))
  {
    var u := NewStorage(s, []);
    assert Step(s, Restore(hydrate, stash)) == Push(u, Restoring(s.next, hydrate, stash));
    hide Drop, Hold;
    var v := if hydrate then u else u.(stash := Some(stash));
    HoldFrame(v, s.next);
    DropFrame(Attach(v, s.next, Ready), s.next);
    assert Pop(Push(u, Restoring(s.next, hydrate, stash))) == u;
    assert s.shadowed + [] == s.shadowed;
  }
}

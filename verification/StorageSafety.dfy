/** What every run of the storage lifecycle keeps. */
module StorageSafety {
  import opened ObjectLayout
  import opened StorageLifecycle

  // ----- the frames

  function Ctors(fs: Frames, x: Storage): nat {
    if fs.Bottom? then 0 else (if fs.top.Ctor? && fs.top.storage == x then 1 else 0) + Ctors(fs.below, x)
  }

  function Restores(fs: Frames, x: Storage): nat {
    if fs.Bottom? then 0 else (if fs.top.Restoring? && fs.top.storage == x then 1 else 0) + Restores(fs.below, x)
  }

  predicate IsGuard(f: Frame, x: Storage) {
    f.Guard? && f.storage == x
  }

  /** From the top, a guard of `x` comes before any constructor that is still reading its arguments. */
  predicate Guarded(fs: Frames, x: Storage) {
    fs.On? && (IsGuard(fs.top, x) || (!fs.top.Arguments? && Guarded(fs.below, x)))
  }

  /** From the top, the constructor of `x` comes before any guard of `x`. */
  predicate CtorFirst(fs: Frames, x: Storage) {
    fs.On? && !IsGuard(fs.top, x) && ((fs.top.Ctor? && fs.top.storage == x) || CtorFirst(fs.below, x))
  }

  /** From the top, a guard of `x` comes before its constructor, before any pending
      blessing and before any constructor that is still reading its arguments. */
  predicate GuardFirst(fs: Frames, x: Storage) {
    fs.On? && (IsGuard(fs.top, x)
               || (!fs.top.Blessing? && !fs.top.Arguments? && !(fs.top.Ctor? && fs.top.storage == x) && GuardFirst(fs.below, x)))
  }

  /** From the top, the release of magic `id` comes before any restore that checked the
      marker and any constructor that found no storage. */
  predicate ReleaseFirst(fs: Frames, id: nat) {
    fs.On? && ((fs.top.AfterRelease? && fs.top.detached == Some(id))
               || (!(fs.top.Restoring? && fs.top.hydrate) && !fs.top.Arguments? && ReleaseFirst(fs.below, id)))
  }

  /** A destroying guard works for the freeing right below it. */
  predicate DestroysOk(fs: Frames) {
    fs.On? ==>
      && (((fs.top.Guard? || fs.top.AfterRelease?) && fs.top.destroying) ==> fs.below.On? && fs.below.top.Clearing?)
      && DestroysOk(fs.below)
  }

  /** What a constructor called and what it still has to call make up the plan for its classes. */
  ghost predicate CtorsOk(fs: Frames, made: map<Storage, seq<Decl>>, ran: map<Storage, seq<Call>>) {
    fs.On? ==>
      && (fs.top.Ctor? ==> fs.top.storage in made && fs.top.storage in ran && Ctors(fs.below, fs.top.storage) == 0
                           && ran[fs.top.storage] + fs.top.todo == Plan(made[fs.top.storage]))
      && (fs.top.Restoring? ==> fs.top.storage in made && fs.top.storage in ran && ran[fs.top.storage] == Plan(made[fs.top.storage]))
      && CtorsOk(fs.below, made, ran)
  }

  // ----- the invariant

  function Copies(xs: seq<Storage>, x: Storage): nat {
    if xs == [] then 0 else (if xs[|xs| - 1] == x then 1 else 0) + Copies(xs[..|xs| - 1], x)
  }

  function InMagic(s: State, x: Storage): nat {
    if s.magic.Some? && s.magic.value.obj == Some(x) then 1 else 0
  }

  function Attached(s: State, x: Storage): nat {
    InMagic(s, x) + Copies(s.shadowed, x) + Times(s.handed, x)
  }

  /** Everything that owns a reference to `x`. */
  function Holders(s: State, x: Storage): nat {
    Attached(s, x) + StackHolds(s.frames, x)
  }

  /** The count of `x` exceeds its holders by `owed`, and `x` was freed exactly when its count is zero. */
  ghost predicate Owes(s: State, x: Storage, owed: int) {
    && Rc(s, x) == Holders(s, x) + owed
    && Times(s.freed, x) == (if x < s.next && Rc(s, x) == 0 then 1 else 0)
    && Attached(s, x) + Restores(s.frames, x) <= 1
    && Times(s.torn, x) <= 1 && (Restores(s.frames, x) > 0 ==> Times(s.torn, x) == 0 && Ctors(s.frames, x) == 0)
    && (x >= s.next ==> Rc(s, x) == 0 && Ctors(s.frames, x) == 0 && Times(s.torn, x) == 0)
  }

  ghost predicate StorageOk(s: State, x: Storage) {
    Owes(s, x, 0)
  }

  ghost predicate StoragesOk(s: State) {
    forall x {:trigger StorageOk(s, x)} :: StorageOk(s, x)
  }

  predicate Complete(s: State, x: Storage) {
    x in s.made && x in s.ran && s.ran[x] == Plan(s.made[x])
  }

  ghost predicate MarkerOk(s: State) {
    s.magic.Some? ==>
      var m := s.magic.value;
      && m.id < s.nextMagic
      && (m.obj.None? <==> m.marker == ReleasingFields)
      && (m.marker == ReleasingFields ==> ReleaseFirst(s.frames, m.id))
      && (m.marker == Releasing ==> GuardFirst(s.frames, m.obj.value) && s.stash.Some?)
      && (m.marker == Initializing ==> Guarded(s.frames, m.obj.value))
      && (m.marker == Initializing && Ctors(s.frames, m.obj.value) > 0 ==> CtorFirst(s.frames, m.obj.value))
      && (m.marker == Ready || m.marker == Failed ==> Ctors(s.frames, m.obj.value) == 0)
      && (m.marker == Released ==> s.frames.On? && s.frames.top.Clearing? && Refs(s) == 0)
      && (m.marker == Initializing || m.marker == Ready || m.marker == Failed ==> Times(s.torn, m.obj.value) == 0)
      && (m.marker == Ready ==> Complete(s, m.obj.value))
  }

  ghost predicate FramesOk(s: State) {
    && CtorsOk(s.frames, s.made, s.ran) && DestroysOk(s.frames)
    && (forall x :: x in s.made || x in s.ran ==> x < s.next)
  }

  /** A freed referent has nothing left. */
  ghost predicate DeadOk(s: State) {
    !s.alive ==> s.magic == None && s.shadowed == [] && Refs(s) == 0
  }

  ghost predicate Inv(s: State) {
    StoragesOk(s) && MarkerOk(s) && FramesOk(s) && DeadOk(s)
  }

  // ----- one storage through one step

  function Same(y: Storage, x: Storage): nat {
    if y == x then 1 else 0
  }

  lemma DropOwes(s: State, y: Storage, x: Storage, owed: int)
    requires Owes(s, x, owed) && (y == x ==> owed >= 1)
    ensures Owes(Drop(s, y), x, owed - Same(y, x))
  {
    hide StackHolds, Restores, Ctors, Copies;
  }

  lemma HoldOwes(s: State, y: Storage, x: Storage, owed: int)
    requires Owes(s, x, owed) && (y == x ==> Rc(s, x) > 0)
    ensures Owes(Hold(s, y), x, owed + Same(y, x))
  {
    hide StackHolds, Restores, Ctors, Copies;
  }

  lemma PopOwes(s: State, x: Storage, owed: int)
    requires Owes(s, x, owed) && s.frames.On?
    ensures Owes(Pop(s), x, owed + FrameHolds(s.frames.top, x))
  {
    hide Copies;
  }

  lemma PushOwes(s: State, f: Frame, x: Storage, owed: int)
    requires Owes(s, x, owed)
    requires (f.Ctor? || f.Restoring?) && f.storage == x ==> x < s.next && Restores(s.frames, x) == 0
    requires f.Restoring? && f.storage == x ==> Attached(s, x) == 0 && Ctors(s.frames, x) == 0 && Times(s.torn, x) == 0
    ensures Owes(Push(s, f), x, owed - FrameHolds(f, x))
  {
    hide Copies;
  }

  /** Changing the magic only. */
  lemma MagicOwes(s: State, m: Option<Magic>, x: Storage, owed: int)
    requires Owes(s, x, owed)
    requires m.Some? && m.value.obj.Some? ==> s.magic.Some? && s.magic.value.obj == m.value.obj
    ensures var t := s.(magic := m); Owes(t, x, owed + InMagic(s, x) - InMagic(t, x))
  {
    hide StackHolds, Restores, Ctors, Copies;
  }

  lemma {:induction false} DropShadowedOwes(s: State, x: Storage, owed: int)
    requires Owes(s, x, owed) && owed >= 0
    ensures var t := DropShadowed(s); Owes(t, x, owed) && t == s.(rc := t.rc, freed := t.freed, shadowed := [])
    decreases |s.shadowed|
  {
    hide StackHolds, Restores, Ctors;
    if s.shadowed != [] {
      var n := |s.shadowed| - 1;
      var y, t := s.shadowed[n], s.(shadowed := s.shadowed[..n]);
      assert Owes(t, x, owed + Same(y, x));
      hide Owes;
      DropOwes(t, y, x, owed + Same(y, x));
      DropShadowedOwes(Drop(t, y), x, owed);
    }
  }

  lemma UnmagicOwes(s: State, x: Storage, owed: int)
    requires Owes(s, x, owed) && owed >= 0
    ensures Owes(Unmagic(s), x, owed)
  {
    hide Owes, DropShadowed, StackHolds, Rc;
    DropShadowedOwes(s, x, owed);
    var t := DropShadowed(s);
    MagicOwes(t, None, x, owed);
    if s.magic.Some? && s.magic.value.obj.Some? {
      DropOwes(t.(magic := None), s.magic.value.obj.value, x, owed + InMagic(t, x));
    }
  }

  lemma DetachOwes(s: State, x: Storage, owed: int)
    requires Owes(s, x, owed) && owed >= 0 && s.magic.Some? && s.magic.value.obj.Some?
    ensures Owes(Detach(s), x, owed)
  {
    hide Owes;
    var y, m := s.magic.value.obj.value, Some(s.magic.value.(obj := None, marker := ReleasingFields));
    MagicOwes(s, m, x, owed);
    DropOwes(s.(magic := m), y, x, owed + Same(y, x));
  }

  lemma ReleaseFieldsKeepsStorage(s: State, x: Storage)
    requires StorageOk(s, x) && s.frames.On? && s.frames.top.Guard? && Detaches(s, s.frames.top)
    ensures StorageOk(ReleaseFields(s), x)
  {
    hide Owes, Detach, Drop;
    var g := s.frames.top;
    PopOwes(s, x, 0);
    DetachOwes(Pop(s), x, Same(g.storage, x));
    DropOwes(Detach(Pop(s)), g.storage, x, Same(g.storage, x));
    PushOwes(Drop(Detach(Pop(s)), g.storage), AfterRelease(Some(s.magic.value.id), g.destroying), x, 0);
  }

  lemma LetGoKeepsStorage(s: State, x: Storage)
    requires StorageOk(s, x) && s.frames.On? && s.frames.top.Guard?
    ensures StorageOk(LetGo(s), x)
  {
    hide Owes, Drop, Rc;
    var g := s.frames.top;
    PopOwes(s, x, 0);
    DropOwes(Pop(s), g.storage, x, Same(g.storage, x));
    PushOwes(Drop(Pop(s), g.storage), AfterRelease(None, g.destroying), x, 0);
  }

  lemma MarkKeepsStorage(s: State, m: Marker, x: Storage)
    requires StorageOk(s, x) && s.magic.Some?
    ensures StorageOk(Mark(s, m), x)
  {
    hide Owes;
    MagicOwes(s, Mark(s, m).magic, x, 0);
    assert Mark(s, m) == s.(magic := Mark(s, m).magic);
  }

  lemma LeaveGuardKeepsStorage(s: State, x: Storage)
    requires StorageOk(s, x) && s.frames.On? && s.frames.top.Guard?
    ensures StorageOk(LeaveGuard(s), x)
  {
    hide Owes, LetGo, ReleaseFields;
    var g := s.frames.top;
    if !Detaches(s, g) {
      LetGoKeepsStorage(s, x);
    } else if Retires(s, g) {
      MarkKeepsStorage(s, Released, x);
      LetGoKeepsStorage(Mark(s, Released), x);
    } else if Preserves(s, g) {
      MarkKeepsStorage(s, Failed, x);
      LetGoKeepsStorage(Mark(s, Failed), x);
    } else {
      ReleaseFieldsKeepsStorage(s, x);
    }
  }

  lemma FinishReleaseKeepsStorage(s: State, x: Storage)
    requires StorageOk(s, x) && s.frames.On? && s.frames.top.AfterRelease?
    ensures StorageOk(FinishRelease(s), x)
  {
    hide Owes, Unmagic;
    PopOwes(s, x, 0);
    UnmagicOwes(Pop(s), x, 0);
  }

  /** Recording a release. */
  lemma TornOwes(s: State, y: Storage, x: Storage, owed: int)
    requires Owes(s, x, owed)
    requires x == y ==> Times(s.torn, x) == 0 && Restores(s.frames, x) == 0 && x < s.next
    ensures Owes(s.(torn := Add(s.torn, y)), x, owed)
  {
    hide StackHolds, Restores, Ctors, Copies;
  }

  lemma SaveGuardOwes(s: State, y: Storage, destroying: bool, preserveFailed: bool, x: Storage)
    requires StorageOk(s, x) && (y == x ==> Rc(s, x) > 0)
    ensures StorageOk(SaveGuard(s, y, destroying, preserveFailed), x)
  {
    hide Owes, Rc;
    HoldOwes(s, y, x, 0);
    PushOwes(Hold(s, y), Guard(y, destroying, preserveFailed), x, Same(y, x));
  }

  lemma AttachedKnown(s: State, y: Storage)
    requires StorageOk(s, y) && InMagic(s, y) == 1
    ensures y < s.next && Rc(s, y) > 0 && Restores(s.frames, y) == 0
  {
    hide StackHolds, Restores, Ctors, Copies, Rc;
  }

  lemma ReleaseKeepsStorage(s: State, destroying: bool, hook: bool, x: Storage)
    requires StorageOk(s, x) && Releasable(s) && Times(s.torn, s.magic.value.obj.value) == 0
    ensures StorageOk(Release(s, destroying, hook), x)
  {
    hide Owes;
    hide Restores, SaveGuard;
    var y := s.magic.value.obj.value;
    if x == y { AttachedKnown(s, y); }
    var t := Mark(s, Releasing);
    MarkKeepsStorage(s, Releasing, x);
    TornOwes(t, y, x, 0);
    var u := t.(torn := Add(s.torn, y));
    assert Rc(u, x) == Rc(s, x);
    SaveGuardOwes(u, y, destroying, false, x);
    PushOwes(SaveGuard(u, y, destroying, false), Hook, x, 0);
  }

  lemma NewStorageOwes(s: State, ds: seq<Decl>, x: Storage)
    requires StorageOk(s, x)
    ensures var t := NewStorage(s, ds); Owes(t, x, Same(s.next, x)) && Rc(t, s.next) == 1
  {
    hide StackHolds, Restores, Ctors, Copies;
  }

  lemma FreshStorage(s: State)
    requires StorageOk(s, s.next)
    ensures Attached(s, s.next) == 0 && Restores(s.frames, s.next) == 0 && Ctors(s.frames, s.next) == 0 && Times(s.torn, s.next) == 0
  {
    RestoresHold(s.frames, s.next);
  }

  lemma {:induction false} RestoresHold(fs: Frames, x: Storage)
    ensures Restores(fs, x) <= StackHolds(fs, x)
  {
    if fs.On? { RestoresHold(fs.below, x); }
  }

  lemma CopiesAppend(xs: seq<Storage>, y: Storage, x: Storage)
    ensures Copies(xs + [y], x) == Copies(xs, x) + Same(y, x)
  {
    assert (xs + [y])[..|xs|] == xs;
  }

  /** The storages that an attachment shadows. */
  function Covered(s: State): seq<Storage> {
    if s.magic.Some? && s.magic.value.obj.Some? then [s.magic.value.obj.value] else []
  }

  lemma AttachShape(s: State, y: Storage, m: Marker)
    ensures var t := Attach(s, y, m);
            t.magic == Some(Magic(s.nextMagic, Some(y), m)) && t.shadowed == s.shadowed + Covered(s) && t.handed == s.handed
  {
    hide Rc;
  }

  lemma CopiesCovered(s: State, x: Storage)
    ensures Copies(s.shadowed + Covered(s), x) == Copies(s.shadowed, x) + InMagic(s, x)
  {
    if s.magic.Some? && s.magic.value.obj.Some? {
      CopiesAppend(s.shadowed, s.magic.value.obj.value, x);
    } else {
      assert s.shadowed + [] == s.shadowed;
    }
  }

  lemma AttachAttached(s: State, y: Storage, m: Marker, x: Storage)
    ensures Attached(Attach(s, y, m), x) == Attached(s, x) + Same(y, x)
  {
    AttachShape(s, y, m);
    CopiesCovered(s, x);
    hide Copies, Attach, Covered;
  }

  lemma AttachFrame(s: State, y: Storage, m: Marker, x: Storage)
    ensures var t := Attach(s, y, m);
            && t.frames == s.frames && t.next == s.next && t.freed == s.freed && t.torn == s.torn
            && Rc(t, x) == Rc(s, x) + Same(y, x)
  {}

  lemma AttachOwes(s: State, y: Storage, m: Marker, x: Storage, owed: int)
    requires Owes(s, x, owed)
    requires y == x ==> Rc(s, x) > 0 && Attached(s, x) == 0 && Restores(s.frames, x) == 0
    ensures Owes(Attach(s, y, m), x, owed)
  {
    hide StackHolds, Restores, Ctors, Attached, Attach, Rc, Times;
    AttachAttached(s, y, m, x);
    AttachFrame(s, y, m, x);
  }

  /** The blessing, the program's references and the constructor's record concern no storage. */
  lemma SameStorages(s: State, t: State, x: Storage, owed: int)
    requires Owes(s, x, owed)
    requires t == s.(stash := t.stash, held := t.held, alive := t.alive, made := t.made, ran := t.ran)
    ensures Owes(t, x, owed)
  {
    hide StackHolds, Restores, Ctors, Copies;
  }

  /** The storage of a new object belongs to its magic alone. */
  lemma NewAttachedOwes(s: State, ds: seq<Decl>, x: Storage)
    requires StorageOk(s, x) && StorageOk(s, s.next)
    ensures var t := Drop(Attach(NewStorage(s, ds), s.next, Initializing), s.next); Owes(t, x, 0) && Rc(t, s.next) == 1
  {
    var y := s.next;
    FreshStorage(s);
    hide Owes, StackHolds, Restores, Ctors, Copies;
    var t0 := NewStorage(s, ds);
    NewStorageOwes(s, ds, x);
    AttachOwes(t0, y, Initializing, x, Same(y, x));
    DropOwes(Attach(t0, y, Initializing), y, x, Same(y, x));
  }

  lemma RcOnly(s: State, t: State, x: Storage)
    requires s.rc == t.rc
    ensures Rc(s, x) == Rc(t, x)
  {}

  lemma ConstructKeepsStorage(s: State, byName: bool, stash: Stash, ds: seq<Decl>, x: Storage)
    requires StorageOk(s, x) && StorageOk(s, s.next)
    ensures StorageOk(Construct(s, byName, stash, ds), x)
  {
    FreshStorage(s);
    NewAttachedOwes(s, ds, x);
    hide Owes, StackHolds, Ctors, Copies, Plan, Rc, Drop;
    var y := s.next;
    var u := Drop(Attach(NewStorage(s, ds), y, Initializing), y);
    var t := u.(stash := if byName then Some(stash) else s.stash);
    SameStorages(u, t, x, 0);
    RcOnly(u, t, y);
    SaveGuardOwes(t, y, false, byName, x);
    PushOwes(SaveGuard(t, y, false, byName), Ctor(y, stash, Plan(ds)), x, 0);
  }

  lemma RestoreKeepsStorage(s: State, hydrate: bool, stash: Stash, x: Storage)
    requires StorageOk(s, x) && StorageOk(s, s.next)
    ensures StorageOk(Push(NewStorage(s, []), Restoring(s.next, hydrate, stash)), x)
  {
    var y := s.next;
    FreshStorage(s);
    hide Owes, StackHolds, Restores, Ctors, Copies;
    NewStorageOwes(s, [], x);
    PushOwes(NewStorage(s, []), Restoring(y, hydrate, stash), x, Same(y, x));
  }

  lemma RestoringKnown(s: State, x: Storage)
    requires StorageOk(s, x) && s.frames.On? && s.frames.top.Restoring? && s.frames.top.storage == x
    ensures Rc(s, x) > 0 && Attached(s, x) == 0 && Restores(s.frames.below, x) == 0
  {
    hide Copies, Ctors, Attached;
  }

  lemma FinishRestoreKeepsStorage(s: State, x: Storage)
    requires StorageOk(s, x) && s.frames.On? && s.frames.top.Restoring?
    ensures StorageOk(FinishRestore(s), x)
  {
    var f := s.frames.top;
    var y, t := f.storage, Pop(s);
    if y == x { RestoringKnown(s, x); }
    hide Owes, Restores, Rc, StackHolds, Copies, Ctors;
    PopOwes(s, x, 0);
    if (!f.hydrate && s.stash.Some?) || Visible(s).Some? {
      DropOwes(t, y, x, Same(y, x));
    } else {
      var u := if f.hydrate then t else t.(stash := Some(f.stash));
      RcOnly(s, u, x);
      SameStorages(t, u, x, Same(y, x));
      AttachOwes(u, y, Ready, x, Same(y, x));
      DropOwes(Attach(u, y, Ready), y, x, Same(y, x));
    }
  }

  lemma FinishClearKeepsStorage(s: State, x: Storage)
    requires StorageOk(s, x) && s.frames.On? && s.frames.top.Clearing?
    ensures StorageOk(FinishClear(s), x)
  {
    hide StackHolds, Copies, Ctors, Restores, Refs, Unmagic;
    var t := Pop(s);
    PopOwes(s, x, 0);
    if Refs(s) == 0 {
      var u := if s.magic.Some? && s.magic.value.marker == Released && s.magic.value.obj.Some? then TakeStorage(t) else t;
      assert Owes(u, x, 0);
      UnmagicOwes(u, x, 0);
      SameStorages(Unmagic(u), Unmagic(u).(alive := false, stash := None), x, 0);
    }
  }

  /** A storage is released at most once: whoever may release it finds it unreleased. */
  lemma ReleasableUntorn(s: State)
    requires MarkerOk(s) && Releasable(s) && (Refs(s) > 0 || !(s.frames.On? && s.frames.top.Clearing?))
    ensures Times(s.torn, s.magic.value.obj.value) == 0
  {}

  lemma ChangeBlessingKeepsStorage(s: State, target: Option<Stash>, hook: bool, x: Storage)
    requires StorageOk(s, x) && MarkerOk(s) && Active(s)
    ensures StorageOk(ChangeBlessing(s, target, hook), x)
  {
    hide Owes, Release, StackHolds, Refs, MarkerOk;
    SameStorages(s, s.(stash := target), x, 0);
    if Releasable(s) {
      ReleasableUntorn(s);
      PushOwes(s, Blessing(target), x, 0);
      ReleaseKeepsStorage(Push(s, Blessing(target)), false, hook, x);
    }
  }

  lemma BeginClearKeepsStorage(s: State, hook: bool, x: Storage)
    requires StorageOk(s, x) && MarkerOk(s) && !(s.frames.On? && s.frames.top.Clearing?)
    ensures StorageOk(BeginClear(s, hook), x)
  {
    hide Owes, Release, StackHolds, Refs, MarkerOk;
    PushOwes(s, Clearing, x, 0);
    if Releasable(s) {
      ReleasableUntorn(s);
      ReleaseKeepsStorage(Push(s, Clearing), true, hook, x);
    }
  }

  lemma CallKeepsStorage(s: State, x: Storage)
    requires StorageOk(s, x) && s.frames.On? && s.frames.top.Ctor? && s.frames.top.todo != [] && s.frames.top.storage in s.ran
    ensures StorageOk(RunCall(s), x)
  {
    var f := s.frames.top;
    assert x == f.storage ==> Restores(s.frames, x) == 0 && x < s.next by { hide StackHolds, Copies; }
    hide Owes, Ctors, StackHolds, Restores, Copies, Attached;
    PopOwes(s, x, 0);
    assert x == f.storage ==> Restores(Pop(s).frames, x) == 0 by { RestoresBelow(s.frames, x); }
    var t := Pop(s).(ran := s.ran[f.storage := s.ran[f.storage] + [f.todo[0]]]);
    SameStorages(Pop(s), t, x, 0);
    PushOwes(t, f.(todo := f.todo[1..]), x, 0);
  }

  lemma RestoresBelow(fs: Frames, x: Storage)
    requires fs.On?
    ensures Restores(fs.below, x) <= Restores(fs, x)
  {}

  lemma ConstructedKeepsStorage(s: State, x: Storage)
    requires StorageOk(s, x) && s.frames.On? && s.frames.top.Ctor? && s.frames.top.todo == []
    ensures StorageOk(FinishConstruct(s), x)
  {
    hide Owes;
    PopOwes(s, x, 0);
    if s.magic.Some? { MarkKeepsStorage(Pop(s), Ready, x); }
  }

  lemma KeepKeepsStorage(s: State, y: Storage, x: Storage)
    requires StorageOk(s, x) && InMagic(s, y) == 1
    ensures StorageOk(Push(Hold(s, y), Temp(y)), x)
  {
    if x == y { AttachedKnown(s, y); }
    hide Owes, Rc, Hold;
    HoldOwes(s, y, x, 0);
    PushOwes(Hold(s, y), Temp(y), x, Same(y, x));
  }

  /** A frame that goes without further effect, or with the one reference it holds. */
  lemma PopKeepsStorage(s: State, x: Storage)
    requires StorageOk(s, x) && s.frames.On?
    ensures FrameHolds(s.frames.top, x) == 0 ==> StorageOk(Pop(s), x)
    ensures s.frames.top.Temp? || s.frames.top.Restoring? ==> StorageOk(Drop(Pop(s), s.frames.top.storage), x)
  {
    hide Owes;
    PopOwes(s, x, 0);
    if s.frames.top.Temp? || s.frames.top.Restoring? {
      DropOwes(Pop(s), s.frames.top.storage, x, Same(s.frames.top.storage, x));
    }
  }

  lemma BeginKeepsStorage(s: State, byName: bool, stash: Stash, ds: seq<Decl>, x: Storage)
    requires StorageOk(s, x) && StorageOk(s, s.next)
    ensures StorageOk(Begin(s, byName, stash, ds), x)
  {
    hide Owes, Construct;
    ConstructKeepsStorage(s, true, stash, ds, x);
    PushOwes(s, Arguments(stash, ds), x, 0);
  }

  lemma ArgumentsKeepStorage(s: State, x: Storage)
    requires StorageOk(s, x) && StorageOk(s, s.next) && s.frames.On? && s.frames.top.Arguments?
    ensures StorageOk(EndArguments(s), x)
  {
    hide Owes, Construct;
    PopKeepsStorage(s, x);
    PopKeepsStorage(s, s.next);
    ConstructKeepsStorage(Pop(s), false, s.frames.top.stash, s.frames.top.classes, x);
  }

  lemma StepKeepsStorage(s: State, e: Event, x: Storage)
    requires StoragesOk(s) && MarkerOk(s)
    ensures StorageOk(Step(s, e), x)
  {
    hide Owes, LeaveGuard, FinishRelease, Begin, EndArguments, FinishRestore, FinishClear, NewStorage, Refs, RunCall, FinishConstruct, ChangeBlessing, BeginClear, Hold, Drop, MarkerOk;
    assert StorageOk(s, x) && StorageOk(s, s.next);
    match e
    case AddRef => SameStorages(s, s.(held := s.held + 1), x, 0);
    case DropRef => if s.held > 0 { SameStorages(s, s.(held := s.held - 1), x, 0); }
    case NewObject(byName, stash, ds) =>
      BeginKeepsStorage(s, byName, stash, ds, x);
    case ArgumentsRead => if s.frames.On? && s.frames.top.Arguments? { ArgumentsKeepStorage(s, x); }
    case Call =>
      if s.frames.On? && s.frames.top.Ctor? && s.frames.top.todo != [] && s.frames.top.storage in s.ran { CallKeepsStorage(s, x); }
    case Constructed => if s.frames.On? && s.frames.top.Ctor? && s.frames.top.todo == [] { ConstructedKeepsStorage(s, x); }
    case Bless(target, hook) => if Active(s) { ChangeBlessingKeepsStorage(s, target, hook, x); }
    case Blessed =>
      if s.frames.On? && s.frames.top.Blessing? {
        PopKeepsStorage(s, x);
        SameStorages(Pop(s), Pop(s).(stash := s.frames.top.target), x, 0);
      }
    case Leave => if s.frames.On? && s.frames.top.Guard? { LeaveGuardKeepsStorage(s, x); }
    case DestructorsDone => if s.frames.On? && s.frames.top.AfterRelease? { FinishReleaseKeepsStorage(s, x); }
    case Keep => if Visible(s).Some? { KeepKeepsStorage(s, Visible(s).value, x); }
    case Restore(hydrate, stash) => RestoreKeepsStorage(s, hydrate, stash, x);
    case Restored => if s.frames.On? && s.frames.top.Restoring? { FinishRestoreKeepsStorage(s, x); }
    case Destroy(hook) => if !(s.frames.On? && s.frames.top.Clearing?) { BeginClearKeepsStorage(s, hook, x); }
    case Cleared => if s.frames.On? && s.frames.top.Clearing? { FinishClearKeepsStorage(s, x); }
    case _ => if s.frames.On? { PopKeepsStorage(s, x); }
  }

  // ----- the marker through one step

  lemma {:induction false} DropShadowedFrame(s: State)
    ensures var t := DropShadowed(s); t == s.(rc := t.rc, freed := t.freed, shadowed := [])
    decreases |s.shadowed|
  {
    if s.shadowed != [] {
      var n := |s.shadowed| - 1;
      DropShadowedFrame(Drop(s.(shadowed := s.shadowed[..n]), s.shadowed[n]));
    }
  }

  lemma UnmagicFrame(s: State)
    ensures var t := Unmagic(s); t == s.(rc := t.rc, freed := t.freed, shadowed := [], magic := None)
  {
    hide DropShadowed, Drop;
    DropShadowedFrame(s);
    var t := DropShadowed(s).(magic := None);
    if s.magic.Some? && s.magic.value.obj.Some? { DropFrame(t, s.magic.value.obj.value); }
  }

  lemma MarkerIndependent(s: State, t: State)
    requires MarkerOk(s)
    requires t == s.(rc := t.rc, freed := t.freed, shadowed := t.shadowed, handed := t.handed, alive := t.alive)
    ensures MarkerOk(t)
  {
    hide Guarded, CtorFirst, GuardFirst, ReleaseFirst, Ctors, StackRefs;
  }

  /** Popping a frame leaves the marker justified, unless it was the frame that justified it. */
  lemma PopKeepsMarker(s: State)
    requires MarkerOk(s) && s.frames.On?
    requires s.frames.top.Clearing? ==> Refs(s) > 0
    requires s.frames.top.Ctor? ==> Ctors(s.frames.below, s.frames.top.storage) == 0
    requires s.frames.top.Guard? ==> !Detaches(s, s.frames.top)
    requires s.frames.top.AfterRelease? && s.frames.top.detached.Some? && s.magic.Some? ==>
      s.frames.top.detached.value != s.magic.value.id || s.magic.value.marker != ReleasingFields
    ensures MarkerOk(Pop(s))
  {}

  lemma PushKeepsMarker(s: State, f: Frame)
    requires MarkerOk(s) && !f.Guard?
    requires s.magic.Some? ==>
      var m := s.magic.value;
      && m.marker != Released
      && !f.Arguments? && (f.Ctor? ==> m.obj != Some(f.storage))
      && (f.Blessing? ==> m.marker != Releasing)
      && (f.Restoring? && f.hydrate ==> m.marker != ReleasingFields)
    ensures MarkerOk(Push(s, f))
  {}

  lemma NotReleased(s: State)
    requires MarkerOk(s) && s.magic.Some? && (Refs(s) > 0 || !(s.frames.On? && s.frames.top.Clearing?))
    ensures s.magic.value.marker != Released
  {}

  lemma LetGoKeepsMarker(s: State)
    requires MarkerOk(s) && s.frames.On? && s.frames.top.Guard? && !Detaches(s, s.frames.top)
    ensures MarkerOk(LetGo(s))
  {
    hide MarkerOk, Drop, Rc;
    PopKeepsMarker(s);
    if s.magic.Some? { NotReleased(s); }
    DropFrame(Pop(s), s.frames.top.storage);
    MarkerIndependent(Pop(s), Drop(Pop(s), s.frames.top.storage));
    PushKeepsMarker(Drop(Pop(s), s.frames.top.storage), AfterRelease(None, s.frames.top.destroying));
  }

  lemma DropFrame(s: State, x: Storage)
    ensures var t := Drop(s, x); t == s.(rc := t.rc, freed := t.freed)
  {}

  /** A retired storage is still held by its magic, so no destructor runs before the hand-over. */
  lemma RetireKeepsMarker(s: State)
    requires Inv(s) && s.frames.On? && s.frames.top.Guard? && Detaches(s, s.frames.top) && Retires(s, s.frames.top)
    ensures MarkerOk(LetGo(Mark(s, Released)))
  {
    var x := s.frames.top.storage;
    var t := Mark(s, Released);
    assert StorageOk(s, x);
    hide Copies, Restores, Guarded, CtorFirst, GuardFirst, ReleaseFirst;
    assert Rc(s, x) >= 2;
    DropFrame(Pop(t), x);
    assert Refs(s) == 1 && StackRefs(s.frames.below) == 0 && s.held == 0;
    hide Ctors, Holders;
    NoCtorRefs(s.frames.below, x);
  }

  lemma {:induction false} NoCtorRefs(fs: Frames, x: Storage)
    ensures Ctors(fs, x) <= StackRefs(fs)
  {
    if fs.On? { NoCtorRefs(fs.below, x); }
  }

  lemma PreserveKeepsMarker(s: State)
    requires MarkerOk(s) && s.frames.On? && s.frames.top.Guard? && Detaches(s, s.frames.top) && Preserves(s, s.frames.top)
    ensures MarkerOk(LetGo(Mark(s, Failed)))
  {
    hide Drop, Rc;
    var x := s.frames.top.storage;
    assert !CtorFirst(s.frames, x) && Ctors(s.frames.below, x) == 0;
    var t := Mark(s, Failed);
    DropFrame(Pop(t), x);
  }

  lemma LeaveGuardKeepsMarker(s: State)
    requires Inv(s) && s.frames.On? && s.frames.top.Guard?
    ensures MarkerOk(LeaveGuard(s))
  {
    hide StoragesOk, FramesOk, LetGo;
    var g := s.frames.top;
    if !Detaches(s, g) {
      LetGoKeepsMarker(s);
    } else if Retires(s, g) {
      RetireKeepsMarker(s);
    } else if Preserves(s, g) {
      PreserveKeepsMarker(s);
    } else {
      hide Drop;
      var m := Pop(s).(magic := Some(s.magic.value.(obj := None, marker := ReleasingFields)));
      DropFrame(m, g.storage);
      DropFrame(Detach(Pop(s)), g.storage);
    }
  }

  lemma FinishReleaseKeepsMarker(s: State)
    requires MarkerOk(s) && s.frames.On? && s.frames.top.AfterRelease?
    ensures MarkerOk(FinishRelease(s))
  {
    hide Unmagic;
    UnmagicFrame(Pop(s));
    var d := s.frames.top.detached;
    if !(d.Some? && s.magic.Some? && s.magic.value.id == d.value && s.magic.value.marker == ReleasingFields) { PopKeepsMarker(s); }
  }

  lemma ReleaseKeepsMarker(s: State, destroying: bool, hook: bool)
    requires MarkerOk(s) && Releasable(s) && s.stash.Some?
    ensures MarkerOk(Release(s, destroying, hook))
  {}

  /** What construction makes of the fields other than the counts. */
  lemma ConstructShape(s: State, byName: bool, stash: Stash, ds: seq<Decl>)
    ensures var u, x := Construct(s, byName, stash, ds), s.next;
            && u.frames == On(Ctor(x, stash, Plan(ds)), On(Guard(x, false, byName), s.frames))
            && u.magic == Some(Magic(s.nextMagic, Some(x), Initializing)) && u.nextMagic == s.nextMagic + 1 && u.torn == s.torn
            && u.made == s.made[x := ds] && u.ran == s.ran[x := []] && u.next == x + 1 && u.alive == s.alive
            && u.stash == if byName then Some(stash) else s.stash
  {
    hide Plan, Drop, Hold;
    var x := s.next;
    HoldFrame(NewStorage(s, ds), x);
    DropFrame(Attach(NewStorage(s, ds), x, Initializing), x);
    var t := Drop(Attach(NewStorage(s, ds), x, Initializing), x).(stash := if byName then Some(stash) else s.stash);
    HoldFrame(t, x);
  }

  /** The frames of a new constructor. */
  lemma NewFrames(fs: Frames, x: Storage, byName: bool, stash: Stash, calls: seq<Call>)
    ensures var gs := On(Ctor(x, stash, calls), On(Guard(x, false, byName), fs)); Guarded(gs, x) && CtorFirst(gs, x)
  {
    var below := On(Guard(x, false, byName), fs);
    assert IsGuard(below.top, x) && Guarded(below, x);
    var f := Ctor(x, stash, calls);
    assert !IsGuard(f, x) && f.Ctor? && f.storage == x && !f.Arguments?;
  }

  lemma ConstructKeepsMarker(s: State, byName: bool, stash: Stash, ds: seq<Decl>)
    requires MarkerOk(s) && StorageOk(s, s.next)
    ensures MarkerOk(Construct(s, byName, stash, ds))
  {
    FreshStorage(s);
    ConstructShape(s, byName, stash, ds);
    hide Construct, Plan, StackHolds, Copies, Restores;
    var u, x := Construct(s, byName, stash, ds), s.next;
    NewFrames(s.frames, x, byName, stash, Plan(ds));
    assert Times(u.torn, x) == 0;
  }

  lemma CallKeepsMarker(s: State)
    requires MarkerOk(s) && s.frames.On? && s.frames.top.Ctor? && s.frames.top.todo != [] && s.frames.top.storage in s.ran
    ensures MarkerOk(RunCall(s))
  {}

  /** A constructor that finds its storage and blessing unchanged was still initialising. */
  lemma StillInitializing(s: State)
    requires MarkerOk(s) && s.frames.On? && s.frames.top.Ctor? && BlessingKept(s, s.frames.top)
    ensures s.magic.value.marker == Initializing
  {}

  lemma ConstructedKeepsMarker(s: State)
    requires MarkerOk(s) && FramesOk(s) && s.frames.On? && s.frames.top.Ctor? && s.frames.top.todo == []
    ensures MarkerOk(FinishConstruct(s))
  {
    if BlessingKept(s, s.frames.top) {
      StillInitializing(s);
      assert Ctors(s.frames.below, s.frames.top.storage) == 0;
      assert s.frames.top.todo == [] && s.ran[s.frames.top.storage] + [] == s.ran[s.frames.top.storage];
      assert Complete(s, s.frames.top.storage);
    } else {
      PopKeepsMarker(s);
    }
  }

  predicate AttachesRestored(s: State)
    requires s.frames.On? && s.frames.top.Restoring?
  {
    (s.frames.top.hydrate || s.stash == None) && Visible(s) == None
  }

  /** What attaching a restored storage makes of the fields that the marker depends on. */
  lemma RestoredShape(s: State)
    requires s.frames.On? && s.frames.top.Restoring? && AttachesRestored(s)
    ensures var t := FinishRestore(s);
            && t.magic == Some(Magic(s.nextMagic, Some(s.frames.top.storage), Ready)) && t.nextMagic == s.nextMagic + 1
            && t.torn == s.torn && SameFrames(Pop(s), t)
  {
    FinishRestoreShape(s);
    hide Drop, Visible;
    var f := s.frames.top;
    var t := if f.hydrate then Pop(s) else Pop(s).(stash := Some(f.stash));
    DropFrame(Attach(t, f.storage, Ready), f.storage);
  }

  lemma NotRestored(s: State)
    requires s.frames.On? && s.frames.top.Restoring? && !AttachesRestored(s)
    ensures FinishRestore(s) == Drop(Pop(s), s.frames.top.storage)
  {
    hide Drop, Attach;
  }

  /** A storage that is being restored is complete, and has neither a constructor nor a release behind it. */
  lemma RestoredIsReady(s: State)
    requires Inv(s) && s.frames.On? && s.frames.top.Restoring?
    ensures var x := s.frames.top.storage; Complete(s, x) && Ctors(s.frames.below, x) == 0 && Times(s.torn, x) == 0
  {
    assert StorageOk(s, s.frames.top.storage);
    hide StoragesOk, MarkerOk, Holders, Attached;
  }

  lemma FinishRestoreKeepsMarker(s: State)
    requires Inv(s) && s.frames.On? && s.frames.top.Restoring?
    ensures MarkerOk(FinishRestore(s))
  {
    if AttachesRestored(s) {
      RestoredShape(s);
      RestoredIsReady(s);
      hide StoragesOk, FramesOk, FinishRestore, Ctors, Guarded, CtorFirst, GuardFirst, ReleaseFirst;
    } else {
      PopKeepsMarker(s);
      NotRestored(s);
      hide StoragesOk, FramesOk, MarkerOk, FinishRestore, Drop;
      DropFrame(Pop(s), s.frames.top.storage);
      MarkerIndependent(Pop(s), Drop(Pop(s), s.frames.top.storage));
    }
  }

  lemma FinishClearKeepsMarker(s: State)
    requires MarkerOk(s) && s.frames.On? && s.frames.top.Clearing?
    ensures MarkerOk(FinishClear(s))
  {
    hide Unmagic;
    var t := Pop(s);
    if Refs(s) > 0 {
      PopKeepsMarker(s);
    } else {
      UnmagicFrame(t);
      if s.magic.Some? && s.magic.value.obj.Some? { UnmagicFrame(TakeStorage(t)); }
    }
  }

  lemma ChangeBlessingKeepsMarker(s: State, target: Option<Stash>, hook: bool)
    requires MarkerOk(s) && Active(s)
    ensures MarkerOk(ChangeBlessing(s, target, hook))
  {
    hide Release, Guarded, CtorFirst, GuardFirst, ReleaseFirst, Ctors;
    if Releasable(s) && s.stash.Some? {
      NotReleased(s);
      PushKeepsMarker(s, Blessing(target));
      ReleaseKeepsMarker(Push(s, Blessing(target)), false, hook);
    }
  }

  lemma BeginClearKeepsMarker(s: State, hook: bool)
    requires MarkerOk(s) && !(s.frames.On? && s.frames.top.Clearing?)
    ensures MarkerOk(BeginClear(s, hook))
  {
    hide Release, MarkerOk;
    if s.magic.Some? { NotReleased(s); }
    PushKeepsMarker(s, Clearing);
    if Releasable(s) && s.stash.Some? { ReleaseKeepsMarker(Push(s, Clearing), true, hook); }
  }

  lemma PlainPopKeepsMarker(s: State)
    requires MarkerOk(s) && FramesOk(s) && s.frames.On?
    requires !s.frames.top.Guard? && !s.frames.top.AfterRelease? && !s.frames.top.Clearing?
    ensures MarkerOk(Pop(s))
    ensures s.frames.top.Temp? || s.frames.top.Restoring? ==> MarkerOk(Drop(Pop(s), s.frames.top.storage))
  {
    PopKeepsMarker(s);
    hide MarkerOk, Drop;
    if s.frames.top.Temp? || s.frames.top.Restoring? {
      DropFrame(Pop(s), s.frames.top.storage);
      MarkerIndependent(Pop(s), Drop(Pop(s), s.frames.top.storage));
    }
  }

  lemma KeepKeepsMarker(s: State, y: Storage)
    requires MarkerOk(s) && (s.magic.Some? ==> s.magic.value.marker != Released)
    ensures MarkerOk(Push(Hold(s, y), Temp(y)))
  {
    hide MarkerOk, Hold;
    HoldFrame(s, y);
    MarkerIndependent(s, Hold(s, y));
    PushKeepsMarker(Hold(s, y), Temp(y));
  }

  lemma BeginKeepsMarker(s: State, byName: bool, stash: Stash, ds: seq<Decl>)
    requires MarkerOk(s) && StorageOk(s, s.next) && s.magic == None
    ensures MarkerOk(Begin(s, byName, stash, ds))
  {
    hide Owes, MarkerOk, Construct;
    ConstructKeepsMarker(s, true, stash, ds);
    PushKeepsMarker(s, Arguments(stash, ds));
  }

  lemma ArgumentsKeepMarker(s: State)
    requires Inv(s) && s.frames.On? && s.frames.top.Arguments?
    ensures MarkerOk(EndArguments(s))
  {
    PopKeepsMarker(s);
    assert StorageOk(s, s.next);
    hide StoragesOk, MarkerOk, FramesOk, Owes, Construct;
    PopKeepsStorage(s, s.next);
    ConstructKeepsMarker(Pop(s), false, s.frames.top.stash, s.frames.top.classes);
  }

  lemma StepKeepsMarker(s: State, e: Event)
    requires Inv(s)
    ensures MarkerOk(Step(s, e))
  {
    hide MarkerOk, StoragesOk, FramesOk, LeaveGuard, FinishRelease, Begin, EndArguments, FinishRestore, FinishClear, RunCall, FinishConstruct, ChangeBlessing, BeginClear, Hold, Drop, NewStorage, StackRefs;
    if s.magic.Some? && Active(s) { NotReleased(s); }
    match e
    case AddRef => if Active(s) { HeldKeepsMarker(s, s.held + 1); }
    case DropRef => if Active(s) && s.held > 0 { HeldKeepsMarker(s, s.held - 1); }
    case NewObject(byName, stash, ds) =>
      if s.magic == None {
        StorageAt(s, s.next);
        BeginKeepsMarker(s, byName, stash, ds);
      }
    case ArgumentsRead => if s.frames.On? && s.frames.top.Arguments? { ArgumentsKeepMarker(s); }
    case Call =>
      if s.frames.On? && s.frames.top.Ctor? && s.frames.top.todo != [] && s.frames.top.storage in s.ran { CallKeepsMarker(s); }
    case Constructed => if s.frames.On? && s.frames.top.Ctor? && s.frames.top.todo == [] { ConstructedKeepsMarker(s); }
    case Bless(target, hook) => if Active(s) { ChangeBlessingKeepsMarker(s, target, hook); }
    case Blessed => if s.frames.On? && s.frames.top.Blessing? { BlessedKeepsMarker(s); }
    case Leave => if s.frames.On? && s.frames.top.Guard? { LeaveGuardKeepsMarker(s); }
    case DestructorsDone => if s.frames.On? && s.frames.top.AfterRelease? { FinishReleaseKeepsMarker(s); }
    case Keep =>
      if Active(s) && Visible(s).Some? { KeepKeepsMarker(s, Visible(s).value); }
    case Restore(hydrate, stash) => if Active(s) && (!hydrate || s.magic == None || s.magic.value.marker == Ready) { RestoreKeepsMarker(s, hydrate, stash); }
    case Restored => if s.frames.On? && s.frames.top.Restoring? { FinishRestoreKeepsMarker(s); }
    case Destroy(hook) => if !(s.frames.On? && s.frames.top.Clearing?) { BeginClearKeepsMarker(s, hook); }
    case Cleared => if s.frames.On? && s.frames.top.Clearing? { FinishClearKeepsMarker(s); }
    case _ =>
      if s.frames.On? && !s.frames.top.Guard? && !s.frames.top.AfterRelease? && !s.frames.top.Clearing? { PlainPopKeepsMarker(s); }
  }

  lemma StorageAt(s: State, x: Storage)
    requires StoragesOk(s)
    ensures StorageOk(s, x)
  {}

  lemma HoldFrame(s: State, x: Storage)
    ensures var t := Hold(s, x); t == s.(rc := t.rc)
  {}

  lemma HeldKeepsMarker(s: State, held: nat)
    requires MarkerOk(s) && (s.magic.Some? ==> s.magic.value.marker != Released)
    ensures MarkerOk(s.(held := held))
  {
    hide Guarded, CtorFirst, GuardFirst, ReleaseFirst, Ctors;
  }

  lemma BlessedKeepsMarker(s: State)
    requires MarkerOk(s) && s.frames.On? && s.frames.top.Blessing?
    ensures MarkerOk(Pop(s).(stash := s.frames.top.target))
  {}

  lemma RestoreKeepsMarker(s: State, hydrate: bool, stash: Stash)
    requires Inv(s) && (s.magic.Some? ==> s.magic.value.marker != Released && (hydrate ==> s.magic.value.marker == Ready))
    ensures MarkerOk(Push(NewStorage(s, []), Restoring(s.next, hydrate, stash)))
  {
    hide StoragesOk;
    var t := NewStorage(s, []);
    assert MarkerOk(t) by { hide Guarded, CtorFirst, GuardFirst, ReleaseFirst, Ctors, CtorsOk, DestroysOk; }
    hide MarkerOk;
    PushKeepsMarker(t, Restoring(s.next, hydrate, stash));
  }

  // ----- the frames through one step

  lemma {:induction false} CtorsOkFrame(fs: Frames, made: map<Storage, seq<Decl>>, ran: map<Storage, seq<Call>>, x: Storage, p: seq<Decl>, r: seq<Call>)
    requires CtorsOk(fs, made, ran) && Ctors(fs, x) == 0 && Restores(fs, x) == 0
    ensures CtorsOk(fs, made[x := p], ran[x := r])
  {
    if fs.On? { CtorsOkFrame(fs.below, made, ran, x, p, r); }
  }

  predicate SameFrames(s: State, t: State) {
    t.frames == s.frames && t.made == s.made && t.ran == s.ran && t.next == s.next && t.alive == s.alive
  }

  lemma FramesIndependent(s: State, t: State)
    requires FramesOk(s) && SameFrames(s, t)
    ensures FramesOk(t)
  {}

  lemma DropSameFrames(s: State, x: Storage)
    ensures SameFrames(s, Drop(s, x))
  {}

  lemma AttachSameFrames(s: State, x: Storage, m: Marker)
    ensures SameFrames(s, Attach(s, x, m))
  {}

  lemma DetachSameFrames(s: State)
    requires s.magic.Some? && s.magic.value.obj.Some?
    ensures SameFrames(s, Detach(s))
  {}

  lemma PopKeepsFrames(s: State)
    requires FramesOk(s) && s.frames.On?
    ensures FramesOk(Pop(s))
  {}

  lemma PushKeepsFrames(s: State, f: Frame)
    requires FramesOk(s) && !f.Ctor? && !f.Restoring?
    requires (f.Guard? || f.AfterRelease?) && f.destroying ==> s.frames.On? && s.frames.top.Clearing?
    ensures FramesOk(Push(s, f))
  {}

  /** The guard on top gave way to its continuation, or to nothing. */
  predicate GuardGone(s: State, t: State)
    requires s.frames.On? && s.frames.top.Guard?
  {
    && t.made == s.made && t.ran == s.ran && t.next == s.next && t.alive == s.alive
    && (t.frames == s.frames.below
        || (t.frames.On? && t.frames.top.AfterRelease? && t.frames.top.destroying == s.frames.top.destroying
            && t.frames.below == s.frames.below))
  }

  lemma LetGoShape(s: State)
    requires s.frames.On? && s.frames.top.Guard?
    ensures GuardGone(s, LetGo(s))
  {
    hide Drop, Rc;
    DropSameFrames(Pop(s), s.frames.top.storage);
  }

  lemma ReleaseFieldsShape(s: State)
    requires s.frames.On? && s.frames.top.Guard? && Detaches(s, s.frames.top)
    ensures GuardGone(s, ReleaseFields(s))
  {
    hide Drop, Detach;
    DetachSameFrames(Pop(s));
    DropSameFrames(Detach(Pop(s)), s.frames.top.storage);
  }

  lemma LeaveGuardShape(s: State)
    requires s.frames.On? && s.frames.top.Guard?
    ensures GuardGone(s, LeaveGuard(s))
  {
    hide LetGo, ReleaseFields, Retires, Preserves;
    LetGoShape(s);
    if Detaches(s, s.frames.top) {
      LetGoShape(Mark(s, Released));
      LetGoShape(Mark(s, Failed));
      ReleaseFieldsShape(s);
    }
  }

  lemma LeaveGuardKeepsFrames(s: State)
    requires FramesOk(s) && s.frames.On? && s.frames.top.Guard?
    ensures FramesOk(LeaveGuard(s))
  {
    hide LeaveGuard;
    LeaveGuardShape(s);
  }

  lemma FinishReleaseKeepsFrames(s: State)
    requires FramesOk(s) && s.frames.On? && s.frames.top.AfterRelease?
    ensures FramesOk(FinishRelease(s))
  {
    hide Unmagic;
    UnmagicFrame(Pop(s));
  }

  lemma FinishClearKeepsFrames(s: State)
    requires FramesOk(s) && s.frames.On? && s.frames.top.Clearing?
    ensures FramesOk(FinishClear(s))
  {
    hide Unmagic, Refs;
    UnmagicFrame(Pop(s));
    if s.magic.Some? && s.magic.value.obj.Some? { UnmagicFrame(TakeStorage(Pop(s))); }
  }

  lemma ConstructFrames(fs: Frames, made: map<Storage, seq<Decl>>, ran: map<Storage, seq<Call>>, x: Storage, byName: bool, stash: Stash, calls: seq<Call>)
    requires CtorsOk(fs, made, ran) && DestroysOk(fs) && Ctors(fs, x) == 0
    requires x in made && x in ran && ran[x] + calls == Plan(made[x])
    ensures var gs := On(Ctor(x, stash, calls), On(Guard(x, false, byName), fs)); CtorsOk(gs, made, ran) && DestroysOk(gs)
  {}

  lemma ConstructKeepsFrames(s: State, byName: bool, stash: Stash, ds: seq<Decl>)
    requires FramesOk(s) && StorageOk(s, s.next)
    ensures FramesOk(Construct(s, byName, stash, ds))
  {
    FreshStorage(s);
    CtorsOkFrame(s.frames, s.made, s.ran, s.next, ds, []);
    ConstructShape(s, byName, stash, ds);
    hide Construct, Plan, Rc, Copies, Restores, StackHolds, CtorsOk, DestroysOk, Ctors, StorageOk;
    var x, calls := s.next, Plan(ds);
    assert [] + calls == calls;
    var made, ran := s.made[x := ds], s.ran[x := []];
    ConstructFrames(s.frames, made, ran, x, byName, stash, calls);
  }

  lemma RestoreKeepsFrames(s: State, hydrate: bool, stash: Stash)
    requires FramesOk(s) && StorageOk(s, s.next)
    ensures FramesOk(Push(NewStorage(s, []), Restoring(s.next, hydrate, stash)))
  {
    FreshStorage(s);
    CtorsOkFrame(s.frames, s.made, s.ran, s.next, [], []);
    hide Rc, Copies, Restores, StackHolds;
  }

  lemma CallKeepsFrames(s: State)
    requires FramesOk(s) && s.frames.On? && s.frames.top.Ctor? && s.frames.top.todo != [] && s.frames.top.storage in s.ran
    requires StorageOk(s, s.frames.top.storage)
    ensures FramesOk(RunCall(s))
  {
    var f := s.frames.top;
    var x, r := f.storage, s.ran[f.storage] + [f.todo[0]];
    assert Restores(s.frames, x) == 0 && Ctors(s.frames.below, x) == 0 by { hide Copies, StackHolds; }
    assert s.made[x := s.made[x]] == s.made;
    CtorsOkFrame(s.frames.below, s.made, s.ran, x, s.made[x], r);
    assert r + f.todo[1..] == s.ran[x] + f.todo;
    hide StorageOk, Ctors, Restores;
  }

  /** A change of blessing releases, or changes the blessing alone, or nothing. */
  lemma ChangeBlessingShape(s: State, target: Option<Stash>, hook: bool)
    ensures var t := ChangeBlessing(s, target, hook);
            t == s || t == s.(stash := target) || (Releasable(s) && t == Release(Push(s, Blessing(target)), false, hook))
  {
    hide Release, Rc;
  }

  lemma ChangeBlessingKeepsFrames(s: State, target: Option<Stash>, hook: bool)
    requires FramesOk(s)
    ensures FramesOk(ChangeBlessing(s, target, hook))
  {
    hide FramesOk, ChangeBlessing, Release;
    ChangeBlessingShape(s, target, hook);
    FramesIndependent(s, s.(stash := target));
    if Releasable(s) {
      PushKeepsFrames(s, Blessing(target));
      ReleaseKeepsFrames(Push(s, Blessing(target)), false, hook);
    }
  }

  lemma ReleaseShape(s: State, destroying: bool, hook: bool)
    requires Releasable(s)
    ensures var t := Push(s, Guard(s.magic.value.obj.value, destroying, false));
            SameFrames(if hook then Push(t, Hook) else t, Release(s, destroying, hook))
  {
    hide Rc;
  }

  lemma ReleaseKeepsFrames(s: State, destroying: bool, hook: bool)
    requires FramesOk(s) && Releasable(s) && (destroying ==> s.frames.On? && s.frames.top.Clearing?)
    ensures FramesOk(Release(s, destroying, hook))
  {
    hide FramesOk, Release;
    var g := Guard(s.magic.value.obj.value, destroying, false);
    ReleaseShape(s, destroying, hook);
    PushKeepsFrames(s, g);
    if hook {
      PushKeepsFrames(Push(s, g), Hook);
      FramesIndependent(Push(Push(s, g), Hook), Release(s, destroying, hook));
    } else {
      FramesIndependent(Push(s, g), Release(s, destroying, hook));
    }
  }

  lemma BeginClearKeepsFrames(s: State, hook: bool)
    requires FramesOk(s)
    ensures FramesOk(BeginClear(s, hook))
  {
    hide FramesOk, Release;
    PushKeepsFrames(s, Clearing);
    if Releasable(s) { ReleaseKeepsFrames(Push(s, Clearing), true, hook); }
  }

  lemma FinishRestoreShape(s: State)
    requires s.frames.On? && s.frames.top.Restoring?
    ensures SameFrames(Pop(s), FinishRestore(s))
  {
    hide Drop, Attach, Visible;
    var f, t := s.frames.top, Pop(s);
    var u := if f.hydrate then t else t.(stash := Some(f.stash));
    DropSameFrames(t, f.storage);
    AttachSameFrames(u, f.storage, Ready);
    DropSameFrames(Attach(u, f.storage, Ready), f.storage);
  }

  lemma FinishRestoreKeepsFrames(s: State)
    requires FramesOk(s) && s.frames.On? && s.frames.top.Restoring?
    ensures FramesOk(FinishRestore(s))
  {
    hide FramesOk, FinishRestore;
    PopKeepsFrames(s);
    FinishRestoreShape(s);
    FramesIndependent(Pop(s), FinishRestore(s));
  }

  /** A frame that goes without further effect. */
  lemma PlainPopKeepsFrames(s: State)
    requires FramesOk(s) && s.frames.On?
    ensures FramesOk(Pop(s))
    ensures s.frames.top.Ctor? ==> FramesOk(FinishConstructed(s))
    ensures s.frames.top.Blessing? ==> FramesOk(Pop(s).(stash := s.frames.top.target))
    ensures s.frames.top.Temp? || s.frames.top.Restoring? ==> FramesOk(Drop(Pop(s), s.frames.top.storage))
  {
    PopKeepsFrames(s);
    hide FramesOk, Drop;
    if s.frames.top.Temp? || s.frames.top.Restoring? {
      DropSameFrames(Pop(s), s.frames.top.storage);
      FramesIndependent(Pop(s), Drop(Pop(s), s.frames.top.storage));
    } else if s.frames.top.Blessing? {
      FramesIndependent(Pop(s), Pop(s).(stash := s.frames.top.target));
    } else if s.frames.top.Ctor? {
      FramesIndependent(Pop(s), FinishConstructed(s));
    }
  }

  function FinishConstructed(s: State): State
    requires s.frames.On? && s.frames.top.Ctor?
  {
    if s.frames.top.todo == [] then FinishConstruct(s) else Pop(s)
  }

  lemma BeginKeepsFrames(s: State, byName: bool, stash: Stash, ds: seq<Decl>)
    requires FramesOk(s) && StorageOk(s, s.next)
    ensures FramesOk(Begin(s, byName, stash, ds))
  {
    hide FramesOk, Owes, Construct;
    ConstructKeepsFrames(s, true, stash, ds);
    PushKeepsFrames(s, Arguments(stash, ds));
  }

  lemma ArgumentsKeepFrames(s: State)
    requires FramesOk(s) && StorageOk(s, s.next) && s.frames.On? && s.frames.top.Arguments?
    ensures FramesOk(EndArguments(s))
  {
    hide FramesOk, Owes, Construct;
    PopKeepsFrames(s);
    PopKeepsStorage(s, s.next);
    ConstructKeepsFrames(Pop(s), false, s.frames.top.stash, s.frames.top.classes);
  }

  predicate IsAction(e: Event) {
    e.AddRef? || e.DropRef? || e.NewObject? || e.Bless? || e.Keep? || e.Restore? || e.Destroy?
  }

  /** What the program does to the referent. */
  lemma ActionKeepsFrames(s: State, e: Event)
    requires Inv(s) && IsAction(e)
    ensures FramesOk(Step(s, e))
  {
    hide StoragesOk, FramesOk, MarkerOk, LeaveGuard, FinishRelease, Begin, EndArguments, FinishRestore, FinishClear, FinishConstruct, RunCall, NewStorage, StackRefs, ChangeBlessing, BeginClear, Drop, Hold;
    StorageAt(s, s.next);
    match e
    case AddRef => FramesIndependent(s, s.(held := s.held + 1));
    case DropRef => if s.held > 0 { FramesIndependent(s, s.(held := s.held - 1)); }
    case NewObject(byName, stash, ds) => BeginKeepsFrames(s, byName, stash, ds);
    case Bless(target, hook) => ChangeBlessingKeepsFrames(s, target, hook);
    case Keep =>
      if Visible(s).Some? {
        HoldFrame(s, Visible(s).value);
        FramesIndependent(s, Hold(s, Visible(s).value));
        PushKeepsFrames(Hold(s, Visible(s).value), Temp(Visible(s).value));
      }
    case Restore(hydrate, stash) => RestoreKeepsFrames(s, hydrate, stash);
    case Destroy(hook) => BeginClearKeepsFrames(s, hook);
  }

  lemma StepKeepsFrames(s: State, e: Event)
    requires Inv(s)
    ensures FramesOk(Step(s, e))
  {
    hide StoragesOk, FramesOk, MarkerOk, LeaveGuard, FinishRelease, Begin, EndArguments, FinishRestore, FinishClear, FinishConstruct, RunCall, NewStorage, StackRefs, ChangeBlessing, BeginClear, Drop, Hold;
    if IsAction(e) {
      hide Step;
      ActionKeepsFrames(s, e);
    } else if s.frames.On? {
      StorageAt(s, s.next);
      if s.frames.top.Ctor? { StorageAt(s, s.frames.top.storage); }
      match e
      case ArgumentsRead => if s.frames.top.Arguments? { ArgumentsKeepFrames(s); }
      case Call => if s.frames.top.Ctor? && s.frames.top.todo != [] && s.frames.top.storage in s.ran { CallKeepsFrames(s); }
      case Leave => if s.frames.top.Guard? { LeaveGuardKeepsFrames(s); }
      case DestructorsDone => if s.frames.top.AfterRelease? { FinishReleaseKeepsFrames(s); }
      case Restored => if s.frames.top.Restoring? { FinishRestoreKeepsFrames(s); }
      case Cleared => if s.frames.top.Clearing? { FinishClearKeepsFrames(s); }
      case _ => PlainPopKeepsFrames(s);
    }
  }

  lemma ClearedDead(s: State)
    requires s.frames.On? && s.frames.top.Clearing? && DeadOk(s)
    ensures DeadOk(FinishClear(s))
  {
    hide Unmagic;
    UnmagicFrame(Pop(s));
    if s.magic.Some? && s.magic.value.obj.Some? { UnmagicFrame(TakeStorage(Pop(s))); }
  }

  /** On a freed referent only frames that do not refer to it can still go. */
  lemma StaysDead(s: State, e: Event)
    requires DeadOk(s) && !s.alive && !e.Cleared?
    ensures DeadOk(Step(s, e))
  {
    hide Rc, Begin, EndArguments, RunCall, NewStorage, FinishRelease, LeaveGuard, ChangeBlessing, BeginClear, FinishRestore, FinishClear;
  }

  lemma ClearedStep(s: State)
    ensures Step(s, Cleared) == if s.frames.On? && s.frames.top.Clearing? then FinishClear(s) else s
  {}

  lemma StepKeepsDead(s: State, e: Event)
    requires Inv(s)
    ensures DeadOk(Step(s, e))
  {
    hide StoragesOk, MarkerOk, FramesOk, Step, FinishClear;
    if e.Cleared? {
      ClearedStep(s);
      if s.frames.On? && s.frames.top.Clearing? { ClearedDead(s); }
    } else if s.alive {
      StaysAlive(s, e);
    } else {
      StaysDead(s, e);
    }
  }

  lemma ChangeBlessingAlive(s: State, target: Option<Stash>, hook: bool)
    ensures ChangeBlessing(s, target, hook).alive == s.alive
  {
    hide Release, ChangeBlessing;
    ChangeBlessingShape(s, target, hook);
    if Releasable(s) { ReleaseShape(Push(s, Blessing(target)), false, hook); }
  }

  lemma BeginClearAlive(s: State, hook: bool)
    ensures BeginClear(s, hook).alive == s.alive
  {
    hide Release;
    if Releasable(s) { ReleaseShape(Push(s, Clearing), true, hook); }
  }

  lemma TopAlive(s: State)
    requires s.frames.On?
    ensures s.frames.top.Ctor? && s.frames.top.todo == [] ==> FinishConstruct(s).alive == s.alive
    ensures s.frames.top.Ctor? && s.frames.top.todo != [] && s.frames.top.storage in s.ran ==> RunCall(s).alive == s.alive
    ensures s.frames.top.Guard? ==> LeaveGuard(s).alive == s.alive
    ensures s.frames.top.AfterRelease? ==> FinishRelease(s).alive == s.alive
    ensures s.frames.top.Restoring? ==> FinishRestore(s).alive == s.alive
    ensures s.frames.top.Restoring? || s.frames.top.Temp? ==> Drop(Pop(s), s.frames.top.storage).alive == s.alive
  {
    hide Unmagic, LeaveGuard, FinishRestore, Refs, Drop;
    UnmagicFrame(Pop(s));
    if s.frames.top.Guard? { LeaveGuardShape(s); }
    if s.frames.top.Restoring? { FinishRestoreShape(s); }
    if s.frames.top.Restoring? || s.frames.top.Temp? { DropSameFrames(Pop(s), s.frames.top.storage); }
  }

  lemma StaysAlive(s: State, e: Event)
    requires s.alive
    ensures Step(s, e).alive || e.Cleared?
  {
    hide Refs, LeaveGuard, FinishRestore, FinishClear, FinishRelease, FinishConstruct, RunCall, Construct, Begin, ChangeBlessing, BeginClear, Drop, Hold;
    if s.frames.On? { TopAlive(s); }
    match e
    case Bless(target, hook) => ChangeBlessingAlive(s, target, hook);
    case Destroy(hook) => BeginClearAlive(s, hook);
    case Keep => if Visible(s).Some? { HoldFrame(s, Visible(s).value); }
    case NewObject(byName, stash, ds) => BeginAlive(s, byName, stash, ds);
    case ArgumentsRead => if s.frames.On? && s.frames.top.Arguments? { ConstructAlive(Pop(s), false, s.frames.top.stash, s.frames.top.classes); }
    case _ =>
  }

  lemma BeginAlive(s: State, byName: bool, stash: Stash, ds: seq<Decl>)
    ensures Begin(s, byName, stash, ds).alive == s.alive
  {
    hide Construct;
    ConstructAlive(s, true, stash, ds);
  }

  lemma ConstructAlive(s: State, byName: bool, stash: Stash, ds: seq<Decl>)
    ensures Construct(s, byName, stash, ds).alive == s.alive
  {
    hide Rc, Plan;
  }

  // ----- runs

  /** Every step keeps the invariant. */
  lemma StepKeepsInv(s: State, e: Event)
    requires Inv(s)
    ensures Inv(Step(s, e))
  {
    hide Step, StorageOk, MarkerOk, FramesOk, DeadOk;
    forall x ensures StorageOk(Step(s, e), x) { StepKeepsStorage(s, e, x); }
    StepKeepsMarker(s, e);
    StepKeepsFrames(s, e);
    StepKeepsDead(s, e);
  }

  /** So does every run. */
  lemma {:induction false} RunKeepsInv(stash: Option<Stash>, es: seq<Event>)
    ensures Inv(Run(Initial(stash), es))
  {
    if es == [] {
      forall x ensures StorageOk(Initial(stash), x) {}
    } else {
      RunKeepsInv(stash, es[..|es| - 1]);
      StepKeepsInv(Run(Initial(stash), es[..|es| - 1]), es[|es| - 1]);
    }
  }
}

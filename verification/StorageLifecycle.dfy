/** The life of the hidden field storage of one referent: construction, reblessing,
    TEARDOWN hooks, field destructors and destruction, nested in any way.

    What runs nested is not fixed: a step may happen whenever the frame it works
    on is on top of the save stack, so hooks, initialisers and field destructors
    are arbitrary sequences of further steps. */
module StorageLifecycle {
  import opened ObjectLayout

  type Storage = nat

  datatype Marker = Initializing | Ready | Releasing | Failed | ReleasingFields | Released

  /** The magic that ties a storage to the referent; its id stands for its address. */
  datatype Magic = Magic(id: nat, obj: Option<Storage>, marker: Marker)

  /** What a constructor has to call. */
  datatype Call = Initialise(decl: Stash) | Adjust(decl: Stash, index: nat)

  datatype Decl = Decl(stash: Stash, adjusts: nat)

  datatype Frame =
    | Guard(storage: Storage, destroying: bool, preserveFailed: bool)
    | AfterRelease(detached: Option<nat>, destroying: bool)   // the guard, while field destructors run
    | Hook                                                    // TEARDOWN is running
    | Arguments(stash: Stash, classes: seq<Decl>)             // a constructor is reading its arguments
    | Ctor(storage: Storage, stash: Stash, todo: seq<Call>)
    | Blessing(target: Option<Stash>)
    | Restoring(storage: Storage, hydrate: bool, stash: Stash)
    | Temp(storage: Storage)                                  // a running operation keeps the storage
    | Clearing                                                // the referent is being freed

  datatype Frames = Bottom | On(top: Frame, below: Frames)

  datatype State = State(
    magic: Option<Magic>, shadowed: seq<Storage>, nextMagic: nat,
    rc: map<Storage, int>, next: nat,
    freed: Tally, handed: Tally, torn: Tally,
    stash: Option<Stash>, held: nat, alive: bool,
    made: map<Storage, seq<Decl>>, ran: map<Storage, seq<Call>>,
    frames: Frames)

  // ----- counting references

  /** How often something happened to each storage. */
  type Tally = map<Storage, nat>

  function Times(m: Tally, x: Storage): nat {
    if x in m then m[x] else 0
  }

  function Add(m: Tally, x: Storage): Tally {
    m[x := Times(m, x) + 1]
  }

  function Rc(s: State, x: Storage): int {
    if x in s.rc then s.rc[x] else 0
  }

  function Hold(s: State, x: Storage): State {
    s.(rc := s.rc[x := Rc(s, x) + 1])
  }

  function Drop(s: State, x: Storage): State {
    var n := Rc(s, x) - 1;
    s.(rc := s.rc[x := n], freed := if n == 0 then Add(s.freed, x) else s.freed)
  }

  function DropShadowed(s: State): State
    decreases |s.shadowed|
  {
    if s.shadowed == [] then s
    else
      var n := |s.shadowed| - 1;
      DropShadowed(Drop(s.(shadowed := s.shadowed[..n]), s.shadowed[n]))
  }

  function FrameHolds(f: Frame, x: Storage): nat {
    if (f.Guard? || f.Temp? || f.Restoring?) && f.storage == x then 1 else 0
  }

  function StackHolds(fs: Frames, x: Storage): nat {
    if fs.Bottom? then 0 else FrameHolds(fs.top, x) + StackHolds(fs.below, x)
  }

  /** References to the referent that the frames own. */
  function StackRefs(fs: Frames): nat {
    if fs.Bottom? then 0 else (if fs.top.Temp? || fs.top.Clearing? || fs.top.Blessing? then 0 else 1) + StackRefs(fs.below)
  }

  /** The reference count of the referent. */
  function Refs(s: State): nat {
    s.held + StackRefs(s.frames)
  }

  function Push(s: State, f: Frame): State {
    s.(frames := On(f, s.frames))
  }

  function Pop(s: State): State
    requires s.frames.On?
  {
    s.(frames := s.frames.below)
  }

  // ----- the guard

  predicate Detaches(s: State, g: Frame)
    requires g.Guard?
  {
    s.magic.Some? && s.magic.value.obj == Some(g.storage) && s.magic.value.marker != Ready
  }

  function Mark(s: State, m: Marker): State
    requires s.magic.Some?
  {
    s.(magic := Some(s.magic.value.(marker := m)))
  }

  function SaveGuard(s: State, x: Storage, destroying: bool, preserveFailed: bool): State {
    Push(Hold(s, x), Guard(x, destroying, preserveFailed))
  }

  /** The last reference goes and TEARDOWN is over: the freeing takes the storage along. */
  predicate Retires(s: State, g: Frame)
    requires g.Guard? && Detaches(s, g)
  {
    g.destroying && Refs(s) == 1 && s.magic.value.marker == Releasing
  }

  predicate Preserves(s: State, g: Frame)
    requires g.Guard? && Detaches(s, g)
  {
    g.preserveFailed && s.magic.value.marker == Initializing
  }

  /** The magic lets go of the storage but stays as a busy marker. */
  function Detach(s: State): State
    requires s.magic.Some? && s.magic.value.obj.Some?
  {
    Drop(s.(magic := Some(s.magic.value.(obj := None, marker := ReleasingFields))), s.magic.value.obj.value)
  }

  function ReleaseFields(s: State): State
    requires s.frames.On? && s.frames.top.Guard? && Detaches(s, s.frames.top)
  {
    var g := s.frames.top;
    Push(Drop(Detach(Pop(s)), g.storage), AfterRelease(Some(s.magic.value.id), g.destroying))
  }

  /** The guard lets go of its own reference only. */
  function LetGo(s: State): State
    requires s.frames.On? && s.frames.top.Guard?
  {
    var g := s.frames.top;
    var t := Drop(Pop(s), g.storage);
    if Rc(t, g.storage) == 0 then Push(t, AfterRelease(None, g.destroying)) else t
  }

  /** Leaving the scope of a guard, up to the point where field destructors may run. */
  function LeaveGuard(s: State): State
    requires s.frames.On? && s.frames.top.Guard?
  {
    var g := s.frames.top;
    if !Detaches(s, g) then LetGo(s)
    else if Retires(s, g) then LetGo(Mark(s, Released))
    else if Preserves(s, g) then LetGo(Mark(s, Failed))
    else ReleaseFields(s)
  }

  /** `sv_unmagic` removes every storage magic of the referent. */
  function Unmagic(s: State): State {
    var t := DropShadowed(s);
    if s.magic.Some? && s.magic.value.obj.Some? then Drop(t.(magic := None), s.magic.value.obj.value) else t.(magic := None)
  }

  /** The rest of the guard, when the field destructors have finished. */
  function FinishRelease(s: State): State
    requires s.frames.On? && s.frames.top.AfterRelease?
  {
    var d := s.frames.top.detached;
    var t := Pop(s);
    if d.Some? && s.magic.Some? && s.magic.value.id == d.value && s.magic.value.marker == ReleasingFields then Unmagic(t) else t
  }

  // ----- releasing

  predicate Releasable(s: State) {
    s.magic.Some? && s.magic.value.obj.Some? && s.magic.value.marker != ReleasingFields && s.magic.value.marker != Releasing
  }

  /** `class_release` on a storage that is not being released yet. */
  function Release(s: State, destroying: bool, hook: bool): State
    requires Releasable(s)
  {
    var x := s.magic.value.obj.value;
    var t := SaveGuard(Mark(s, Releasing).(torn := Add(s.torn, x)), x, destroying, false);
    if hook then Push(t, Hook) else t
  }

  /** `sv_bless`, and `sv_unbless` without a target: a different blessing releases
      the storage first; during TEARDOWN that is refused. */
  function ChangeBlessing(s: State, target: Option<Stash>, hook: bool): State {
    if s.stash == None || s.stash == target || s.magic == None || s.magic.value.marker == ReleasingFields then s.(stash := target)
    else if Releasable(s) then Release(Push(s, Blessing(target)), false, hook)
    else s
  }

  /** The last reference is gone. */
  function BeginClear(s: State, hook: bool): State {
    var t := Push(s, Clearing);
    if s.stash.Some? && Releasable(s) then Release(t, true, hook) else t
  }

  // ----- construction

  /** All initialisers, then all ADJUST blocks, in class order. */
  function Initialisers(ds: seq<Decl>): seq<Call> {
    if ds == [] then [] else [Initialise(ds[0].stash)] + Initialisers(ds[1..])
  }

  function Adjusts(ds: seq<Decl>): seq<Call> {
    if ds == [] then [] else seq(ds[0].adjusts, (j: nat) => Adjust(ds[0].stash, j)) + Adjusts(ds[1..])
  }

  function Plan(ds: seq<Decl>): seq<Call> {
    Initialisers(ds) + Adjusts(ds)
  }

  /** How many ADJUST blocks the first `n` classes have. */
  function AdjustsBefore(ds: seq<Decl>, n: nat): nat
    requires n <= |ds|
  {
    if n == 0 then 0 else AdjustsBefore(ds, n - 1) + ds[n - 1].adjusts
  }

  /** The calls that construct an object of these classes, one by one: the initialiser of
      each class, then every ADJUST block of each class, and nothing else. */
  ghost predicate CallsFor(calls: seq<Call>, ds: seq<Decl>) {
    && |calls| == |ds| + AdjustsBefore(ds, |ds|)
    && (forall i: nat :: i < |ds| ==> calls[i] == Initialise(ds[i].stash))
    && (forall i: nat, j: nat :: i < |ds| && j < ds[i].adjusts ==> AdjustsAt(calls, ds, i, j))
  }

  /** The `j`th block of class number `i` has its place among the calls. */
  ghost predicate AdjustsAt(calls: seq<Call>, ds: seq<Decl>, i: nat, j: nat)
    requires i < |ds|
  {
    var k := |ds| + AdjustsBefore(ds, i) + j;
    k < |calls| && calls[k] == Adjust(ds[i].stash, j)
  }

  /** A new storage comes with one reference, which the caller owns. */
  function NewStorage(s: State, ds: seq<Decl>): State {
    s.(next := s.next + 1, rc := s.rc[s.next := 1], made := s.made[s.next := ds], ran := s.ran[s.next := []])
  }

  function Attach(s: State, x: Storage, m: Marker): State {
    var was := if s.magic.Some? && s.magic.value.obj.Some? then [s.magic.value.obj.value] else [];
    Hold(s, x).(magic := Some(Magic(s.nextMagic, Some(x), m)), nextMagic := s.nextMagic + 1, shadowed := s.shadowed + was)
  }

  /** `self` and the guard come first, then the calls.  An existing object keeps the
      blessing it has by now, and an older storage that it may have got is shadowed. */
  function Construct(s: State, byName: bool, stash: Stash, ds: seq<Decl>): State {
    var x := s.next;
    var t := Drop(Attach(NewStorage(s, ds), x, Initializing), x).(stash := if byName then Some(stash) else s.stash);
    Push(SaveGuard(t, x, false, byName), Ctor(x, stash, Plan(ds)))
  }

  /** The constructor has found no storage.  Nothing else knows an object that is made
      from a class name, so for that one reading the arguments makes no difference. */
  function Begin(s: State, byName: bool, stash: Stash, ds: seq<Decl>): State {
    if byName then Construct(s, true, stash, ds) else Push(s, Arguments(stash, ds))
  }

  function EndArguments(s: State): State
    requires s.frames.On? && s.frames.top.Arguments?
  {
    Construct(Pop(s), false, s.frames.top.stash, s.frames.top.classes)
  }

  function RunCall(s: State): State
    requires s.frames.On? && s.frames.top.Ctor? && s.frames.top.todo != [] && s.frames.top.storage in s.ran
  {
    var f := s.frames.top;
    Push(Pop(s).(ran := s.ran[f.storage := s.ran[f.storage] + [f.todo[0]]]), f.(todo := f.todo[1..]))
  }

  predicate BlessingKept(s: State, f: Frame)
    requires f.Ctor?
  {
    s.magic.Some? && s.magic.value.obj == Some(f.storage) && s.stash == Some(f.stash)
  }

  function FinishConstruct(s: State): State
    requires s.frames.On? && s.frames.top.Ctor? && s.frames.top.todo == []
  {
    if BlessingKept(s, s.frames.top) then Mark(Pop(s), Ready) else Pop(s)
  }

  // ----- restoring from a hash

  /** `class_storage`: nothing for an unblessed referent. */
  function Visible(s: State): Option<Storage> {
    if s.stash.Some? && s.magic.Some? then s.magic.value.obj else None
  }

  function FinishRestore(s: State): State
    requires s.frames.On? && s.frames.top.Restoring?
  {
    var f := s.frames.top;
    var t := Pop(s);
    if (!f.hydrate && s.stash.Some?) || Visible(s).Some? then Drop(t, f.storage)
    else Drop(Attach(if f.hydrate then t else t.(stash := Some(f.stash)), f.storage, Ready), f.storage)
  }

  // ----- freeing the referent

  /** `class_take_storage`: the storage goes to the walk that frees containers. */
  function TakeStorage(s: State): State
    requires s.magic.Some? && s.magic.value.obj.Some?
  {
    s.(handed := Add(s.handed, s.magic.value.obj.value), magic := Some(s.magic.value.(obj := None)))
  }

  function FinishClear(s: State): State
    requires s.frames.On? && s.frames.top.Clearing?
  {
    var t := Pop(s);
    if Refs(s) > 0 then t
    else
      var u := if s.magic.Some? && s.magic.value.marker == Released && s.magic.value.obj.Some? then TakeStorage(t) else t;
      Unmagic(u).(alive := false, stash := None)
  }

  // ----- steps

  datatype Event =
    | AddRef | DropRef
    | NewObject(byName: bool, stash: Stash, classes: seq<Decl>) | ArgumentsRead | Call | Constructed
    | Bless(target: Option<Stash>, hook: bool) | Blessed
    | Return | Throw
    | Leave | DestructorsDone
    | Keep | Unkeep
    | Restore(hydrate: bool, stash: Stash) | Restored
    | Destroy(hook: bool) | Cleared

  /** The program can only act on a referent that something still refers to. */
  predicate Active(s: State) {
    s.alive && Refs(s) > 0 && !(s.frames.On? && s.frames.top.Clearing?)
  }

  /** One step; a step that is not possible changes nothing.  A constructor refuses a
      referent whose storage is there, whatever its state; but it looks before it reads
      its arguments, which can run code that reaches an existing object. */
  function Step(s: State, e: Event): State {
    match e
    case AddRef => if Active(s) then s.(held := s.held + 1) else s
    case DropRef => if Active(s) && s.held > 0 then s.(held := s.held - 1) else s
    case NewObject(byName, stash, ds) =>
      if Active(s) && s.magic == None && (byName || s.stash == Some(stash)) then Begin(s, byName, stash, ds) else s
    case ArgumentsRead => if s.frames.On? && s.frames.top.Arguments? then EndArguments(s) else s
    case Call =>
      if s.frames.On? && s.frames.top.Ctor? && s.frames.top.todo != [] && s.frames.top.storage in s.ran then RunCall(s) else s
    case Constructed => if s.frames.On? && s.frames.top.Ctor? && s.frames.top.todo == [] then FinishConstruct(s) else s
    case Bless(target, hook) =>
      if Active(s) then ChangeBlessing(s, target, hook) else s
    case Blessed => if s.frames.On? && s.frames.top.Blessing? then Pop(s).(stash := s.frames.top.target) else s
    case Return => if s.frames.On? && s.frames.top.Hook? then Pop(s) else s
    case Throw =>
      if s.frames.On? && (s.frames.top.Hook? || s.frames.top.Arguments? || s.frames.top.Ctor? || s.frames.top.Blessing?) then Pop(s)
      else if s.frames.On? && s.frames.top.Restoring? then Drop(Pop(s), s.frames.top.storage)
      else s
    case Leave => if s.frames.On? && s.frames.top.Guard? then LeaveGuard(s) else s
    case DestructorsDone => if s.frames.On? && s.frames.top.AfterRelease? then FinishRelease(s) else s
    case Keep => if Active(s) && Visible(s).Some? then Push(Hold(s, Visible(s).value), Temp(Visible(s).value)) else s
    case Unkeep => if s.frames.On? && s.frames.top.Temp? then Drop(Pop(s), s.frames.top.storage) else s
    case Restore(hydrate, stash) =>
      if Active(s) && (if hydrate then s.stash.Some? && (s.magic == None || s.magic.value.marker == Ready) else s.stash == None)
      then Push(NewStorage(s, []), Restoring(s.next, hydrate, stash)) else s
    case Restored => if s.frames.On? && s.frames.top.Restoring? then FinishRestore(s) else s
    case Destroy(hook) =>
      if s.alive && Refs(s) == 0 && !(s.frames.On? && s.frames.top.Clearing?) then
        BeginClear(s, hook)
      else s
    case Cleared => if s.frames.On? && s.frames.top.Clearing? then FinishClear(s) else s
  }

  function Run(s: State, es: seq<Event>): State {
    if es == [] then s else Step(Run(s, es[..|es| - 1]), es[|es| - 1])
  }

  /** A referent the program holds one reference to, without storage. */
  function Initial(stash: Option<Stash>): State {
    State(None, [], 0, map[], 0, map[], map[], map[], stash, 1, true, map[], map[], Bottom)
  }
}

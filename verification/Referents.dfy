/** The referent as the original keeps it: fields updated in place. */
module Referents {
  import opened ObjectLayout
  import opened StorageLifecycle
  import opened StorageSafety
  import opened StorageTheorems

  class Referent {
    var magic: Option<Magic>
    var shadowed: seq<Storage>
    var nextMagic: nat
    var rc: map<Storage, int>
    var next: nat
    var freed: Tally
    var handed: Tally
    var torn: Tally
    var stash: Option<Stash>
    var held: nat
    var alive: bool
    var made: map<Storage, seq<Decl>>
    var ran: map<Storage, seq<Call>>
    var frames: Frames

    constructor (stash: Option<Stash>)
      ensures Value() == Initial(stash)
    {
      magic, shadowed, nextMagic, rc, next := None, [], 0, map[], 0;
      freed, handed, torn, this.stash, held := map[], map[], map[], stash, 1;
      alive, made, ran, frames := true, map[], map[], Bottom;
    }

    function Value(): State
      reads this
    {
      State(magic, shadowed, nextMagic, rc, next, freed, handed, torn, stash, held, alive, made, ran, frames)
    }

    method DropReference(x: Storage)
      modifies this
      ensures Value() == Drop(old(Value()), x)
    {
      var n := (if x in rc then rc[x] else 0) - 1;
      rc := rc[x := n];
      if n == 0 { freed := Add(freed, x); }
    }

    method SaveStorageGuard(x: Storage, destroying: bool, preserveFailed: bool)
      modifies this
      ensures Value() == SaveGuard(old(Value()), x, destroying, preserveFailed)
    {
      rc := rc[x := (if x in rc then rc[x] else 0) + 1];
      frames := On(Guard(x, destroying, preserveFailed), frames);
    }

    /** The guard, up to the point where field destructors may run. */
    method StorageGuard()
      requires frames.On? && frames.top.Guard?
      modifies this
      ensures Value() == LeaveGuard(old(Value()))
    {
      hide Drop, Rc;
      var guard := frames.top;
      var detach := magic.Some? && magic.value.obj == Some(guard.storage) && magic.value.marker != Ready;
      if detach && guard.destroying && held + StackRefs(frames) == 1 && magic.value.marker == Releasing {
        magic := Some(magic.value.(marker := Released));
        detach := false;
      }
      if detach && guard.preserveFailed && magic.value.marker == Initializing {
        magic := Some(magic.value.(marker := Failed));
        detach := false;
      }
      frames := frames.below;
      var mg := if detach then Some(magic.value.id) else None;
      if detach {
        magic := Some(magic.value.(obj := None, marker := ReleasingFields));
        DropReference(guard.storage);
      }
      DropReference(guard.storage);
      if detach || Rc(Value(), guard.storage) == 0 {
        frames := On(AfterRelease(mg, guard.destroying), frames);
      }
    }
 
    /** `sv_unmagic`: every storage magic goes, with what it refers to. */
    method RemoveMagic()
      modifies this
      ensures Value() == Unmagic(old(Value()))
    {
      var m := magic;
      hide Drop;
      ghost var target := DropShadowed(Value());
      while shadowed != []
        invariant DropShadowed(Value()) == target && magic == m
        decreases |shadowed|
      {
        var n := |shadowed| - 1;
        var x := shadowed[n];
        label L:
        shadowed := shadowed[..n];
        assert Value() == old@L(Value()).(shadowed := old@L(shadowed)[..n]);
        DropKeepsShadowed(Value(), x);
        DropReference(x);
      }
      magic := None;
      if m.Some? && m.value.obj.Some? { DropReference(m.value.obj.value); }
    }

    /** The rest of the guard, once the field destructors have run. */
    method AfterDestructors()
      requires frames.On? && frames.top.AfterRelease?
      modifies this
      ensures Value() == FinishRelease(old(Value()))
    {
      hide Unmagic;
      var detached := frames.top.detached;
      frames := frames.below;
      if detached.Some? && magic.Some? && magic.value.id == detached.value && magic.value.marker == ReleasingFields {
        RemoveMagic();
      }
    }

    /** `class_release`; the error is the attempt to bless during TEARDOWN. */
    method ClassRelease(destroying: bool, hook: bool) returns (error: bool)
      requires magic.Some? ==> (magic.value.obj.Some? <==> magic.value.marker != ReleasingFields)
      modifies this
      ensures error <==> old(magic).Some? && old(magic).value.marker == Releasing
      ensures Value() == if Releasable(old(Value())) then Release(old(Value()), destroying, hook) else old(Value())
    {
      if magic.None? || magic.value.marker == ReleasingFields { return false; }
      if magic.value.marker == Releasing { return true; }
      var x := magic.value.obj.value;
      magic := Some(magic.value.(marker := Releasing));
      torn := Add(torn, x);
      SaveStorageGuard(x, destroying, false);
      if hook { frames := On(Hook, frames); }
      return false;
    }

    /** `class_take_storage`: only a retired storage is handed over. */
    method ClassTakeStorage() returns (storage: Option<Storage>)
      modifies this
      ensures storage == if old(magic).Some? && old(magic).value.marker == Released then old(magic).value.obj else None
      ensures Value() == if storage.Some? then TakeStorage(old(Value())) else old(Value())
    {
      if magic.None? || magic.value.marker != Released || magic.value.obj.None? { return None; }
      storage := magic.value.obj;
      handed := Add(handed, storage.value);
      magic := Some(magic.value.(obj := None));
    }

    /** Nothing refers to the referent any more: the storage is taken, the magic goes. */
    method FinishClearing() returns (storage: Option<Storage>)
      requires frames.On? && frames.top.Clearing? && held + StackRefs(frames) == 0
      modifies this
      ensures Value() == FinishClear(old(Value()))
      ensures storage == if old(magic).Some? && old(magic).value.marker == Released then old(magic).value.obj else None
    {
      hide Unmagic, TakeStorage;
      frames := frames.below;
      storage := ClassTakeStorage();
      RemoveMagic();
      alive, stash := false, None;
    }

    method AllocateStorage(ds: seq<Decl>) returns (x: Storage)
      modifies this
      ensures x == old(next) && Value() == NewStorage(old(Value()), ds)
    {
      x := next;
      next, rc, made, ran := next + 1, rc[x := 1], made[x := ds], ran[x := []];
    }

    /** `sv_magicext`: the new magic hides an older one. */
    method AddMagic(x: Storage, marker: Marker)
      modifies this
      ensures Value() == Attach(old(Value()), x, marker)
    {
      rc := rc[x := (if x in rc then rc[x] else 0) + 1];
      shadowed := shadowed + if magic.Some? && magic.value.obj.Some? then [magic.value.obj.value] else [];
      magic, nextMagic := Some(Magic(nextMagic, Some(x), marker)), nextMagic + 1;
    }

    /** The start of the constructor, once the arguments are read. */
    method BeginConstruct(byName: bool, class_: Stash, classes: seq<Decl>)
      modifies this
      ensures Value() == Construct(old(Value()), byName, class_, classes)
      ensures Starts(old(Value()), Value(), class_, classes)
      ensures magic == Some(Magic(old(nextMagic), Some(old(next)), Initializing))
      ensures stash == if byName then Some(class_) else old(stash)
    {
      hide Drop, Plan, Attach, NewStorage, SaveGuard, CallsFor;
      var calls := Plan(classes);
      var x := AllocateStorage(classes);
      AddMagic(x, Initializing);
      DropReference(x);
      StashKept(old(Value()), classes);
      if byName { stash := Some(class_); }
      SaveStorageGuard(x, false, byName);
      frames := On(Ctor(x, class_, calls), frames);
      BeginsWith(old(Value()), byName, class_, classes);
    }

    /** The end of restoring: nothing is attached while a storage is visible. */
    method FinishRestoring()
      requires frames.On? && frames.top.Restoring?
      modifies this
      ensures Value() == FinishRestore(old(Value()))
    {
      hide Drop, Attach;
      var x, hydrate, class_ := frames.top.storage, frames.top.hydrate, frames.top.stash;
      frames := frames.below;
      if (hydrate || stash.None?) && (stash.None? || magic.None? || magic.value.obj.None?) {
        if !hydrate { stash := Some(class_); }
        AddMagic(x, Ready);
      }
      DropReference(x);
    }

    /** The end of the constructor; the error is a blessing or storage that changed meanwhile. */
    method FinishConstructor() returns (error: bool)
      requires frames.On? && frames.top.Ctor? && frames.top.todo == []
      modifies this
      ensures Value() == FinishConstruct(old(Value()))
      ensures error <==> !BlessingKept(old(Value()), old(frames).top)
    {
      var x, class_ := frames.top.storage, frames.top.stash;
      frames := frames.below;
      if magic.None? || magic.value.obj != Some(x) || stash != Some(class_) { return true; }
      magic := Some(magic.value.(marker := Ready));
      return false;
    }
  }

  lemma BeginsWith(s: State, byName: bool, stash: Stash, ds: seq<Decl>)
    ensures var t := Construct(s, byName, stash, ds);
            && Starts(s, t, stash, ds) && t.magic == Some(Magic(s.nextMagic, Some(s.next), Initializing))
            && t.stash == if byName then Some(stash) else s.stash
  {
    PlanCalls(ds);
    ConstructShape(s, byName, stash, ds);
    hide Construct, Plan, CallsFor;
  }

  lemma StashKept(s: State, ds: seq<Decl>)
    ensures Drop(Attach(NewStorage(s, ds), s.next, Initializing), s.next).stash == s.stash
  {
    hide Rc;
  }

  lemma DropKeepsShadowed(s: State, x: Storage)
    ensures Drop(s, x).shadowed == s.shadowed && Drop(s, x).magic == s.magic
  {}
}

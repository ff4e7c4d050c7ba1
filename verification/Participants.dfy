/** The participants of a composition: the consumer and the roles it names. */
module Participants {
  import opened BitMasks
  import opened OriginSets
  import opened SlotTables
  import opened SlotMerge
  import opened ObjectLayout

  /** A method body as it sits in a stash.  `provider` is the stash it was written
      in, which cloning preserves; a stub without a body is a requirement. */
  datatype Cv = Cv(provider: Stash, body: Option<nat>, isMethod: bool, offset: nat)

  /** What a method slot carries; an accessor remembers the field it was made for. */
  datatype Method = Method(cv: Option<Cv>, fromField: Option<Name>)

  type MethodSlot = Slot<Method>
  type FieldSlot = Slot<Name>

  function CombineMethods(a: Method, b: Method): Method {
    Method(if a.cv.Some? then a.cv else b.cv, if a.fromField.Some? then a.fromField else b.fromField)
  }

  function KeepLeft(a: Name, b: Name): Name {
    a
  }

  /** The intermediate form of a class or role. */
  class ProtoRole {
    const stash: Stash
    const methods: SlotTable<Method>
    const fields: SlotTable<Name>

    constructor (stash: Stash)
      ensures this.stash == stash && methods.Valid() && fields.Valid()
      ensures methods.Contents() == [] && fields.Contents() == []
    {
      this.stash := stash;
      methods := new SlotTable<Method>(8);
      fields := new SlotTable<Name>(4);
    }
  }

  // ----- collecting the methods of a stash

  /** One entry of the symbol table of a stash. */
  datatype StashEntry = StashEntry(name: Name, cv: Option<Cv>)

  ghost predicate Recorded(s: seq<MethodSlot>, n: Name) {
    exists i :: 0 <= i < |s| && s[i].name == n
  }

  /** The slot of a named method: a requirement when it has no body. */
  function SlotFor(e: StashEntry): MethodSlot
    requires e.cv.Some?
  {
    Slot(e.name, 0, Method(if e.cv.value.body.Some? then e.cv else None, None))
  }

  /** What walking the symbol table adds to the accessors already recorded. */
  function WithEntries(s: seq<MethodSlot>, entries: seq<StashEntry>): seq<MethodSlot>
    decreases |entries|
  {
    if entries == [] then s
    else
      var e := entries[0];
      var found := exists i :: 0 <= i < |s| && s[i].name == e.name;
      WithEntries(if e.cv.Some? && e.cv.value.isMethod && !found then s + [SlotFor(e)] else s, entries[1..])
  }

  lemma {:induction false} WithEntriesDistinct(s: seq<MethodSlot>, entries: seq<StashEntry>)
    requires DistinctNames(s)
    ensures DistinctNames(WithEntries(s, entries))
    decreases |entries|
  {
    if entries != [] {
      var e := entries[0];
      var found := exists i :: 0 <= i < |s| && s[i].name == e.name;
      WithEntriesDistinct(if e.cv.Some? && e.cv.value.isMethod && !found then s + [SlotFor(e)] else s, entries[1..]);
    }
  }

  /** A symbol table has one entry for a name. */
  ghost predicate DistinctEntries(entries: seq<StashEntry>) {
    forall i, j :: 0 <= i < j < |entries| ==> entries[i].name != entries[j].name
  }

  /** The accessors of a name are recorded as they were. */
  ghost predicate AccessorKept(table: seq<MethodSlot>, accessors: seq<MethodSlot>, n: Name) {
    Recorded(accessors, n) ==> Named(table, n) == Named(accessors, n)
  }

  /** A method is recorded once, with its code or, when it is a stub, without; anything else is not. */
  ghost predicate EntryRecorded(table: seq<MethodSlot>, accessors: seq<MethodSlot>, e: StashEntry) {
    Recorded(accessors, e.name)
    || Named(table, e.name) == match e.cv {
      case None => []
      case Some(Cv(provider, body, isMethod, offset)) =>
        if !isMethod then []
        else if body == None then [Slot(e.name, 0, Method(None, None))]
        else [Slot(e.name, 0, Method(Some(Cv(provider, body, true, offset)), None))]
    }
  }

  ghost predicate Unheard(accessors: seq<MethodSlot>, entries: seq<StashEntry>, n: Name) {
    !Recorded(accessors, n) && forall i :: 0 <= i < |entries| ==> entries[i].name != n
  }

  /** A table holds what a stash with these accessors and entries provides and asks for. */
  ghost predicate Records(table: seq<MethodSlot>, accessors: seq<MethodSlot>, entries: seq<StashEntry>) {
    && (forall n {:trigger AccessorKept(table, accessors, n)} :: AccessorKept(table, accessors, n))
    && (forall e {:trigger EntryRecorded(table, accessors, e)} :: e in entries ==> EntryRecorded(table, accessors, e))
    && (forall n {:trigger Unheard(accessors, entries, n)} :: Unheard(accessors, entries, n) ==> Named(table, n) == [])
  }

  lemma RecordedAppend(s: seq<MethodSlot>, x: MethodSlot, n: Name)
    ensures Recorded(s + [x], n) <==> Recorded(s, n) || x.name == n
  {
    if Recorded(s, n) {
      var i :| 0 <= i < |s| && s[i].name == n;
      assert (s + [x])[i].name == n;
    }
    if x.name == n { assert (s + [x])[|s|].name == n; }
  }

  lemma NamedUnrecorded(s: seq<MethodSlot>, n: Name)
    requires !Recorded(s, n)
    ensures Named(s, n) == []
  {
    NamedNone(s, n);
  }

  lemma {:induction false} AccessorStays(s: seq<MethodSlot>, entries: seq<StashEntry>, n: Name)
    requires Recorded(s, n)
    ensures Named(WithEntries(s, entries), n) == Named(s, n)
    decreases |entries|
  {
    if entries != [] {
      var e := entries[0];
      if e.cv.Some? && e.cv.value.isMethod && !Recorded(s, e.name) {
        RecordedAppend(s, SlotFor(e), n);
        NamedAppend(s, SlotFor(e), n);
        AccessorStays(s + [SlotFor(e)], entries[1..], n);
      } else {
        AccessorStays(s, entries[1..], n);
      }
    }
  }

  lemma {:induction false} UnheardOf(s: seq<MethodSlot>, entries: seq<StashEntry>, n: Name)
    requires Unheard(s, entries, n)
    ensures Named(WithEntries(s, entries), n) == []
    decreases |entries|
  {
    if entries == [] {
      NamedUnrecorded(s, n);
    } else {
      var e := entries[0];
      if e.cv.Some? && e.cv.value.isMethod && !Recorded(s, e.name) {
        RecordedAppend(s, SlotFor(e), n);
        UnheardOf(s + [SlotFor(e)], entries[1..], n);
      } else {
        UnheardOf(s, entries[1..], n);
      }
    }
  }

  lemma {:induction false} EntryComesIn(s: seq<MethodSlot>, entries: seq<StashEntry>, i: nat)
    requires i < |entries| && DistinctEntries(entries)
    ensures EntryRecorded(WithEntries(s, entries), s, entries[i])
    decreases |entries|
  {
    var e, n := entries[0], entries[i].name;
    if !Recorded(s, n) {
      if e.cv.Some? && e.cv.value.isMethod && !Recorded(s, e.name) {
        RecordedAppend(s, SlotFor(e), n);
        NamedAppend(s, SlotFor(e), n);
        NamedUnrecorded(s, n);
        if i == 0 { AccessorStays(s + [SlotFor(e)], entries[1..], n); }
        else { EntryComesIn(s + [SlotFor(e)], entries[1..], i - 1); }
      } else if i == 0 {
        UnheardOf(s, entries[1..], n);
      } else {
        EntryComesIn(s, entries[1..], i - 1);
      }
    }
  }

  /** Walking the symbol table and sorting records each name as it should be. */
  lemma SortedRecords(accessors: seq<MethodSlot>, entries: seq<StashEntry>)
    requires DistinctEntries(entries)
    ensures Records(SortSlots(WithEntries(accessors, entries)), accessors, entries)
  {
    var all := WithEntries(accessors, entries);
    var table := SortSlots(all);
    hide WithEntries, SortSlots, Named, Unheard, DistinctEntries;
    forall n ensures AccessorKept(table, accessors, n) {
      SortSlotsStable(all, n);
      if Recorded(accessors, n) { AccessorStays(accessors, entries, n); }
    }
    forall e | e in entries ensures EntryRecorded(table, accessors, e) {
      var i :| 0 <= i < |entries| && entries[i] == e;
      EntryComesIn(accessors, entries, i);
      SortSlotsStable(all, e.name);
    }
    forall n | Unheard(accessors, entries, n) ensures Named(table, n) == [] {
      UnheardOf(accessors, entries, n);
      SortSlotsStable(all, n);
    }
  }

  method FindName(t: SlotTable<Method>, n: Name) returns (found: bool)
    requires t.Valid()
    ensures found <==> Recorded(t.Contents(), n)
  {
    for i := 0 to t.count
      invariant forall j :: 0 <= j < i ==> t.slots[j].name != n
    {
      if t.slots[i].name == n {
        assert t.Contents()[i].name == n;
        return true;
      }
    }
    return false;
  }

  /** Records the named methods, in whatever order the symbol table yields them, and sorts both tables. */
  method Finalize(pr: ProtoRole, entries: seq<StashEntry>)
    requires pr.methods.Valid() && pr.fields.Valid() && pr.methods.slots != pr.fields.slots as object
    modifies pr.methods, pr.methods.slots, pr.fields.slots
    ensures pr.methods.Valid() && pr.fields.Valid()
    ensures pr.methods.Contents() == SortSlots(WithEntries(old(pr.methods.Contents()), entries))
    ensures pr.fields.Contents() == SortSlots(old(pr.fields.Contents()))
    ensures Sorted(pr.methods.Contents()) && Sorted(pr.fields.Contents())
    ensures DistinctEntries(entries) ==> Records(pr.methods.Contents(), old(pr.methods.Contents()), entries)
  {
    ghost var target := WithEntries(pr.methods.Contents(), entries);
    ghost var fieldSlots := pr.fields.Contents();
    for i := 0 to |entries|
      invariant pr.methods.Valid() && pr.fields.Valid()
      invariant pr.fields.slots == old(pr.fields.slots) && pr.fields.Contents() == fieldSlots
      invariant pr.methods.slots == old(pr.methods.slots) || fresh(pr.methods.slots)
      invariant WithEntries(pr.methods.Contents(), entries[i..]) == target
    {
      var e := entries[i];
      assert entries[i..][0] == e && entries[i..][1..] == entries[i + 1..];
      var found := FindName(pr.methods, e.name);
      if e.cv.Some? && e.cv.value.isMethod && !found {
        pr.methods.Add(SlotFor(e));
      }
    }
    pr.methods.Sort();
    pr.fields.Sort();
    SortSlotsSorts(target);
    SortSlotsSorts(fieldSlots);
    if DistinctEntries(entries) { SortedRecords(old(pr.methods.Contents()), entries); }
  }

  // ----- origin ids

  /** A method slot that carries code gets the bit of its participant; a requirement keeps no origin. */
  function WithBit(s: seq<MethodSlot>, bit: OriginSet): seq<MethodSlot> {
    seq(|s|, i requires 0 <= i < |s| => if s[i].payload.cv.Some? then s[i].(origins := bit) else s[i])
  }

  function FieldsWithBit(s: seq<FieldSlot>, bit: OriginSet): seq<FieldSlot> {
    seq(|s|, i requires 0 <= i < |s| => s[i].(origins := bit))
  }

  method AssignBit(pr: ProtoRole, bit: OriginSet)
    requires pr.methods.Valid() && pr.fields.Valid() && pr.methods.slots != pr.fields.slots as object
    modifies pr.methods.slots, pr.fields.slots
    ensures pr.methods.Contents() == WithBit(old(pr.methods.Contents()), bit)
    ensures pr.fields.Contents() == FieldsWithBit(old(pr.fields.Contents()), bit)
  {
    var m := pr.methods;
    for i := 0 to m.count
      invariant forall k :: 0 <= k < m.count ==>
        (var was := old(m.slots[k]); m.slots[k] == if k < i && was.payload.cv.Some? then was.(origins := bit) else was)
      invariant pr.fields.slots[..] == old(pr.fields.slots[..])
    {
      if m.slots[i].payload.cv.Some? {
        m.slots[i] := m.slots[i].(origins := bit);
      }
    }
    var f := pr.fields;
    for i := 0 to f.count
      invariant forall k :: 0 <= k < f.count ==>
        (var was := old(f.slots[k]); f.slots[k] == if k < i then was.(origins := bit) else was)
      invariant m.Contents() == WithBit(old(m.Contents()), bit)
    {
      f.slots[i] := f.slots[i].(origins := bit);
    }
  }

  /** All participants are distinct objects with distinct storage. */
  ghost predicate Separate(prs: seq<ProtoRole>)
    reads set pr | pr in prs :: pr.methods, set pr | pr in prs :: pr.fields
  {
    && (forall i :: 0 <= i < |prs| ==> prs[i].methods.Valid() && prs[i].fields.Valid()
                                       && prs[i].methods.slots != prs[i].fields.slots as object)
    && (forall i, j :: 0 <= i < |prs| && 0 <= j < |prs| && i != j ==>
          && prs[i].methods.slots != prs[j].methods.slots && prs[i].fields.slots != prs[j].fields.slots
          && prs[i].methods.slots != prs[j].fields.slots as object)
  }

  /** Participant `p` carries bit `p` on everything it defines, and is otherwise as before. */
  twostate predicate Stamped(pr: ProtoRole, bit: OriginSet)
    reads pr.methods, pr.methods.slots, pr.fields, pr.fields.slots
  {
    && old(pr.methods.Valid() && pr.fields.Valid()) && pr.methods.Valid() && pr.fields.Valid()
    && pr.methods.Contents() == WithBit(old(pr.methods.Contents()), bit)
    && pr.fields.Contents() == FieldsWithBit(old(pr.fields.Contents()), bit)
  }

  twostate predicate Untouched(pr: ProtoRole)
    reads pr.methods, pr.methods.slots, pr.fields, pr.fields.slots
  {
    && pr.methods.slots == old(pr.methods.slots) && pr.fields.slots == old(pr.fields.slots)
    && pr.methods.slots[..] == old(pr.methods.slots[..]) && pr.fields.slots[..] == old(pr.fields.slots[..])
  }

  /** Giving one participant its bit leaves the others alone. */
  method StampNext(all: seq<ProtoRole>, p: nat)
    requires Separate(all) && p < |all| && p < MAX_BITS
    modifies all[p].methods.slots, all[p].fields.slots
    ensures Stamped(all[p], Bit(p)) && Separate(all)
    ensures forall i: nat {:trigger all[i]} :: i < |all| && i != p ==> Untouched(all[i])
  {
    hide Bit, WithBit, FieldsWithBit;
    AssignBit(all[p], Bit(p));
  }

  /** The consumer, first in the list, takes bit 0, the roles the bits after it;
      at most 31 roles fit beside the consumer. */
  method AssignIds(all: seq<ProtoRole>) returns (ok: bool, stashes: seq<Stash>)
    requires all != [] && Separate(all)
    modifies set pr | pr in all :: pr.methods.slots
    modifies set pr | pr in all :: pr.fields.slots
    ensures ok <==> |all| <= MAX_BITS
    ensures ok ==> |stashes| == |all| && forall p: nat :: p < |all| ==> stashes[p] == all[p].stash && Stamped(all[p], Bit(p))
  {
    hide Bit, WithBit, FieldsWithBit;
    stashes := [];
    for p := 0 to |all|
      invariant p <= MAX_BITS && Separate(all)
      invariant |stashes| == p && forall i :: 0 <= i < p ==> stashes[i] == all[i].stash
      invariant forall i: nat :: i < p ==> Stamped(all[i], Bit(i))
      invariant forall i: nat :: p <= i < |all| ==> Untouched(all[i])
    {
      if p >= MAX_BITS { return false, stashes; }
      stashes := stashes + [all[p].stash];
      StampNext(all, p);
    }
    return true, stashes;
  }
}

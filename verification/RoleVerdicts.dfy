/** The verdict on a class over the whole graph of roles.

    A role composes its own table, as it was recorded, with the tables of the roles
    it names, and appends to it what is still required.  The methods of those roles
    are installed into its symbol table, but never enter its own table; so what a
    class can call and what the tables say can differ. */
module RoleVerdicts {
  import opened BitMasks
  import opened OriginSets
  import opened SlotTables
  import opened SlotMerge
  import opened AheadSlots
  import opened ObjectLayout
  import opened Participants
  import opened Composition
  import opened Resolution
  import opened Verdicts
  import opened Propagation
  import opened Installation

  /** A role or class: what it recorded for itself, its own symbol table, and the roles
      it names. */
  datatype Decl = Decl(own: seq<MethodSlot>, entries: Symbols, uses: seq<nat>)

  /** Declarations in the order in which they are sealed. */
  type Program = seq<Decl>

  ghost predicate HasMethod(entries: Symbols, n: Name) {
    n in entries && entries[n].isMethod && entries[n].body.Some?
  }

  /** The declaration names earlier ones, at most 31, and has recorded the methods it wrote. */
  ghost predicate DeclOk(prog: Program, k: nat)
    requires k < |prog|
  {
    && Finalized(prog[k].own) && |prog[k].uses| < MAX_BITS
    && (forall u :: u in prog[k].uses ==> u < k)
    && (forall n :: Defines(prog[k].own, n) <==> HasMethod(prog[k].entries, n))
    && (forall n :: n in prog[k].entries ==> prog[k].entries[n].provider == k)
  }

  ghost predicate ProgramOk(prog: Program) {
    forall k: nat {:trigger DeclOk(prog, k)} :: k < |prog| ==> DeclOk(prog, k)
  }

  // ----- what is recorded for a declaration

  /** The table asks for the name. */
  ghost predicate Wants(s: seq<MethodSlot>, n: Name) {
    exists i :: 0 <= i < |s| && s[i].name == n && s[i].payload.cv == None
  }

  /** The entries of a stash as a map. */
  ghost predicate Tabled(entries: seq<StashEntry>, symbols: Symbols) {
    && DistinctEntries(entries)
    && (forall e :: e in entries && e.cv.Some? ==> e.name in symbols && symbols[e.name] == e.cv.value)
    && (forall n :: n in symbols ==> StashEntry(n, Some(symbols[n])) in entries)
  }

  /** Generated accessors carry code and sit in the stash as methods. */
  ghost predicate AccessorsOk(accessors: seq<MethodSlot>, symbols: Symbols) {
    && DistinctNames(accessors) && Accessors(accessors)
    && forall i :: 0 <= i < |accessors| ==> HasMethod(symbols, accessors[i].name)
  }

  lemma {:induction false} InNamed(s: seq<MethodSlot>, n: Name, x: MethodSlot)
    ensures x in Named(s, n) <==> x in s && x.name == n
  {
    if s != [] {
      var k := |s| - 1;
      InNamed(s[..k], n, x);
      assert s == s[..k] + [s[k]];
    }
  }

  lemma NamedFacts(s: seq<MethodSlot>, n: Name)
    ensures Defines(s, n) <==> exists x :: x in Named(s, n) && x.payload.cv.Some?
    ensures Wants(s, n) <==> exists x :: x in Named(s, n) && x.payload.cv == None
  {
    forall x ensures x in Named(s, n) <==> x in s && x.name == n { InNamed(s, n, x); }
    hide Named;
    if Defines(s, n) {
      var i :| 0 <= i < |s| && s[i].name == n && s[i].payload.cv.Some?;
      assert s[i] in Named(s, n);
    }
    if Wants(s, n) {
      var i :| 0 <= i < |s| && s[i].name == n && s[i].payload.cv == None;
      assert s[i] in Named(s, n);
    }
  }

  lemma RecordedAccessor(table: seq<MethodSlot>, accessors: seq<MethodSlot>, symbols: Symbols, n: Name)
    requires AccessorsOk(accessors, symbols) && Recorded(accessors, n) && Named(table, n) == Named(accessors, n)
    ensures Defines(table, n) && HasMethod(symbols, n) && !Wants(table, n)
  {
    NamedFacts(table, n);
    NamedFacts(accessors, n);
    var i :| 0 <= i < |accessors| && accessors[i].name == n;
    InNamed(accessors, n, accessors[i]);
    forall x | x in Named(accessors, n) ensures x.payload.cv.Some? { InNamed(accessors, n, x); }
  }

  lemma RecordedEntry(table: seq<MethodSlot>, accessors: seq<MethodSlot>, e: StashEntry)
    requires EntryRecorded(table, accessors, e) && !Recorded(accessors, e.name)
    ensures Defines(table, e.name) <==> e.cv.Some? && e.cv.value.isMethod && e.cv.value.body.Some?
    ensures Wants(table, e.name) <==> e.cv.Some? && e.cv.value.isMethod && e.cv.value.body == None
  {
    NamedFacts(table, e.name);
    hide Defines, Wants;
    if e.cv.Some? && e.cv.value.isMethod {
      assert Named(table, e.name)[0] in Named(table, e.name);
    }
  }

  lemma RecordedOnce(table: seq<MethodSlot>, accessors: seq<MethodSlot>, entries: seq<StashEntry>, n: Name)
    requires Records(table, accessors, entries) && DistinctNames(accessors) && Accessors(accessors)
    ensures |Named(table, n)| <= 1 && forall x :: x in Named(table, n) ==> x.origins == 0
  {
    assert AccessorKept(table, accessors, n);
    if Recorded(accessors, n) {
      NamedOnce(accessors, n);
      forall x | x in Named(table, n) ensures x.origins == 0 { InNamed(accessors, n, x); }
    } else if i: nat :| i < |entries| && entries[i].name == n {
      assert EntryRecorded(table, accessors, entries[i]);
    } else {
      assert Unheard(accessors, entries, n);
    }
  }

  lemma RecordedFinalized(table: seq<MethodSlot>, accessors: seq<MethodSlot>, entries: seq<StashEntry>)
    requires Records(table, accessors, entries) && DistinctNames(accessors) && Accessors(accessors) && Sorted(table)
    ensures Finalized(table)
  {
    hide Records, Named, DistinctNames, Accessors;
    forall i, j | 0 <= i < j < |table| ensures table[i].name < table[j].name {
      RecordedOnce(table, accessors, entries, table[i].name);
      if table[i].name == table[j].name { NamedTwo(table, i, j); }
    }
    forall i | 0 <= i < |table| ensures table[i].origins == 0 {
      RecordedOnce(table, accessors, entries, table[i].name);
      InNamed(table, table[i].name, table[i]);
    }
  }

  /** What is recorded for a stash provides exactly the methods with a body that its symbol
      table holds, asks for exactly the stubs, and is sorted without duplicates. */
  lemma RecordedDecl(table: seq<MethodSlot>, accessors: seq<MethodSlot>, entries: seq<StashEntry>, symbols: Symbols)
    requires Sorted(table) && Records(table, accessors, entries) && Tabled(entries, symbols) && AccessorsOk(accessors, symbols)
    ensures Finalized(table)
    ensures forall n :: Defines(table, n) <==> HasMethod(symbols, n)
    ensures forall n :: Wants(table, n) <==> n in symbols && symbols[n].isMethod && symbols[n].body == None
  {
    RecordedFinalized(table, accessors, entries);
    hide Defines, Wants, Named, Recorded, Finalized;
    forall n
      ensures Defines(table, n) <==> HasMethod(symbols, n)
      ensures Wants(table, n) <==> n in symbols && symbols[n].isMethod && symbols[n].body == None
    {
      assert AccessorKept(table, accessors, n);
      if Recorded(accessors, n) {
        RecordedAccessor(table, accessors, symbols, n);
      } else if i: nat :| i < |entries| && entries[i].name == n {
        assert EntryRecorded(table, accessors, entries[i]);
        RecordedEntry(table, accessors, entries[i]);
        SameEntry(entries, symbols, i);
      } else {
        assert Unheard(accessors, entries, n);
        NamedFacts(table, n);
      }
    }
  }

  lemma SameEntry(entries: seq<StashEntry>, symbols: Symbols, i: nat)
    requires Tabled(entries, symbols) && i < |entries|
    ensures var e := entries[i]; (e.cv.Some? <==> e.name in symbols) && (e.cv.Some? ==> symbols[e.name] == e.cv.value)
  {
    var n := entries[i].name;
    if n in symbols {
      var j: nat :| j < |entries| && entries[j] == StashEntry(n, Some(symbols[n]));
      assert entries[i].name == entries[j].name;
    }
  }

  /** The tables that take part in the composition of declaration `k`. */
  ghost function Before(prog: Program, k: nat): seq<seq<MethodSlot>>
    requires ProgramOk(prog) && k < |prog|
    decreases k, 0
  {
    assert DeclOk(prog, k);
    var uses := prog[k].uses;
    [prog[k].own] + seq(|uses|, i requires 0 <= i < |uses| => assert uses[i] in uses; TableOf(prog, uses[i]))
  }

  /** The table of a sealed role. */
  ghost function TableOf(prog: Program, k: nat): seq<MethodSlot>
    requires ProgramOk(prog) && k < |prog|
    decreases k, 1
  {
    assert DeclOk(prog, k);
    if prog[k].uses == [] then prog[k].own
    else prog[k].own + NewRequirements(ComposeAll(Stamp(Before(prog, k)), CombineMethods), prog[k].own)
  }

  lemma BeforeAt(prog: Program, k: nat, p: nat)
    requires ProgramOk(prog) && k < |prog| && 0 < p <= |prog[k].uses|
    ensures prog[k].uses[p - 1] in prog[k].uses && prog[k].uses[p - 1] < k
    ensures Before(prog, k)[p] == TableOf(prog, prog[k].uses[p - 1])
  {
    assert DeclOk(prog, k);
    assert prog[k].uses[p - 1] in prog[k].uses;
  }

  lemma OwnShape(s: seq<MethodSlot>)
    requires Finalized(s)
    ensures RequirementsEmpty(s) && CodeAhead(s) && forall n :: !Overtaken(s, n)
  {}

  lemma TableShape(prog: Program, k: nat)
    requires ProgramOk(prog) && k < |prog|
    ensures RequirementsEmpty(TableOf(prog, k)) && CodeAhead(TableOf(prog, k))
    ensures forall n :: Defines(TableOf(prog, k), n) <==> Defines(prog[k].own, n)
    ensures prog[k].own <= TableOf(prog, k)
  {
    assert DeclOk(prog, k);
    var own := prog[k].own;
    OwnShape(own);
    if prog[k].uses != [] {
      var composed := ComposeAll(Stamp(Before(prog, k)), CombineMethods);
      PassingOnGrows(composed, own, 0);
      NewRequirementsEmpty(composed, own);
      var added := NewRequirements(composed, own);
      hide NewRequirements, ComposeAll, Stamp, CodeAhead, RequirementsEmpty;
      forall n ensures Defines(own + added, n) <==> Defines(own, n) { DefinesJoin(own, added, n); }
    }
  }

  lemma DefinesJoin(a: seq<MethodSlot>, b: seq<MethodSlot>, n: Name)
    requires forall i :: 0 <= i < |b| ==> b[i].payload.cv == None
    ensures Defines(a + b, n) <==> Defines(a, n)
  {
    if Defines(a, n) {
      var i :| 0 <= i < |a| && a[i].name == n && a[i].payload.cv.Some?;
      assert (a + b)[i] == a[i];
    }
  }

  lemma BeforeComposable(prog: Program, k: nat)
    requires ProgramOk(prog) && k < |prog|
    ensures Composable(Before(prog, k)) && |Before(prog, k)| == 1 + |prog[k].uses| <= MAX_BITS && Before(prog, k)[0] == prog[k].own
  {
    assert DeclOk(prog, k);
    OwnShape(prog[k].own);
    var before := Before(prog, k);
    hide TableOf, CodeAhead, RequirementsEmpty;
    forall p: nat | p < |before| ensures RequirementsEmpty(before[p]) && CodeAhead(before[p]) {
      if p > 0 {
        BeforeAt(prog, k, p);
        TableShape(prog, prog[k].uses[p - 1]);
      }
    }
  }

  // ----- what a role passes on

  /** Composing these tables leaves the name open. */
  ghost predicate LeftOpen(before: seq<seq<MethodSlot>>, n: Name) {
    (Mentioned(before, n) && Definers(before, n) == {}) || Lost(before, n)
  }

  ghost predicate RequiredSlot(s: seq<MethodSlot>, i: nat, n: Name) {
    i < |s| && s[i].name == n && IsRequired(s[i].origins)
  }

  lemma {:induction false} NewRequirementsAre(composed: seq<MethodSlot>, stored: seq<MethodSlot>, n: Name)
    ensures Names(NewRequirements(composed, stored), n) <==> !Names(stored, n) && exists i: nat :: RequiredSlot(composed, i, n)
  {
    if composed != [] {
      var k := |composed| - 1;
      NewRequirementsAre(composed[..k], stored, n);
      forall i: nat | i < k ensures RequiredSlot(composed, i, n) <==> RequiredSlot(composed[..k], i, n) {}
      if i: nat :| RequiredSlot(composed, i, n) { assert i < k ==> RequiredSlot(composed[..k], i, n); }
      NewRequirementsLast(composed, stored, n);
      hide NewRequirements, IsRequired;
    } else {
      assert NewRequirements(composed, stored) == [];
    }
  }

  lemma NewRequirementsLast(composed: seq<MethodSlot>, stored: seq<MethodSlot>, n: Name)
    requires composed != []
    ensures var k := |composed| - 1;
            Names(NewRequirements(composed, stored), n) <==>
            Names(NewRequirements(composed[..k], stored), n) || (RequiredSlot(composed, k, n) && !Names(stored, n))
  {
    var k := |composed| - 1;
    var m := composed[k].name;
    assert (exists j :: 0 <= j < |stored| && stored[j].name == m) <==> Names(stored, m);
    var last: seq<MethodSlot> := if IsRequired(composed[k].origins) && !Names(stored, m) then [Slot(m, 0, Method(None, None))] else [];
    assert NewRequirements(composed, stored) == NewRequirements(composed[..k], stored) + last;
    hide NewRequirements, IsRequired;
    NamesAppended(NewRequirements(composed[..k], stored), last, n);
    assert Names(last, n) <==> last != [] && last[0].name == n;
  }

  lemma NamesAppended(a: seq<MethodSlot>, b: seq<MethodSlot>, n: Name)
    ensures Names(a + b, n) <==> Names(a, n) || Names(b, n)
  {
    if Names(a, n) {
      var i :| 0 <= i < |a| && a[i].name == n;
      assert (a + b)[i].name == n;
    }
    if Names(b, n) {
      var i :| 0 <= i < |b| && b[i].name == n;
      assert (a + b)[|a| + i].name == n;
    }
  }

  /** The composed table has an open slot for a name exactly when its tables leave it open. */
  lemma OpenSlot(before: seq<seq<MethodSlot>>, n: Name)
    requires Composable(before) && |before| <= MAX_BITS
    ensures (exists i: nat :: RequiredSlot(ComposeAll(Stamp(before), CombineMethods), i, n)) <==> LeftOpen(before, n)
  {
    var s := ComposeAll(Stamp(before), CombineMethods);
    SlotsOfName(before, n);
    hide ComposeAll, Stamp, Members, IsRequired, Definers, Mentioned, Lost;
    forall i: nat | i < |s| ensures IsRequired(s[i].origins) <==> Members(s[i].origins) == {} { StatusBySize(s[i].origins); }
    if LeftOpen(before, n) {
      var i: nat :| SlotAt(s, i, n, {});
      assert RequiredSlot(s, i, n);
    }
  }

  lemma OwnWants(own: seq<MethodSlot>, n: Name)
    requires Strict(own)
    ensures Wants(own, n) <==> Names(own, n) && !Defines(own, n)
  {
    if Names(own, n) && !Defines(own, n) {
      var i :| 0 <= i < |own| && own[i].name == n;
      assert own[i].payload.cv == None;
    }
  }

  lemma WantsJoin(own: seq<MethodSlot>, added: seq<MethodSlot>, n: Name)
    requires forall i :: 0 <= i < |added| ==> added[i].payload.cv == None
    ensures Wants(own + added, n) <==> Wants(own, n) || Names(added, n)
  {
    var all := own + added;
    if Wants(own, n) {
      var i :| 0 <= i < |own| && own[i].name == n && own[i].payload.cv == None;
      assert all[i] == own[i];
    }
    if Names(added, n) {
      var i :| 0 <= i < |added| && added[i].name == n;
      assert all[|own| + i] == added[i];
    }
  }

  lemma PassedOnAlone(prog: Program, k: nat, n: Name)
    requires ProgramOk(prog) && k < |prog| && prog[k].uses == []
    ensures TableOf(prog, k) == prog[k].own && (LeftOpen(Before(prog, k), n) ==> Names(prog[k].own, n))
  {
    assert DeclOk(prog, k);
    assert Before(prog, k) == [prog[k].own];
    OwnShape(prog[k].own);
    OwnAlone(prog[k].own, n);
  }

  lemma PassedOnComposed(own: seq<MethodSlot>, before: seq<seq<MethodSlot>>, n: Name)
    requires Composable(before) && |before| <= MAX_BITS
    ensures Wants(own + NewRequirements(ComposeAll(Stamp(before), CombineMethods), own), n) <==>
            Wants(own, n) || (!Names(own, n) && LeftOpen(before, n))
  {
    var composed := ComposeAll(Stamp(before), CombineMethods);
    NewRequirementsEmpty(composed, own);
    hide NewRequirements, ComposeAll, Stamp, LeftOpen, Composable, Wants, Names;
    WantsJoin(own, NewRequirements(composed, own), n);
    NewRequirementsAre(composed, own, n);
    OpenSlot(before, n);
  }

  /** A role asks for a name exactly when it wrote the requirement itself, or does not
      mention the name and its composition leaves it open. */
  lemma PassedOnExactly(prog: Program, k: nat, n: Name)
    requires ProgramOk(prog) && k < |prog|
    ensures Wants(TableOf(prog, k), n) <==>
            Wants(prog[k].own, n) || (!Names(prog[k].own, n) && LeftOpen(Before(prog, k), n))
  {
    if prog[k].uses == [] {
      PassedOnAlone(prog, k, n);
    } else {
      BeforeComposable(prog, k);
      hide NewRequirements, ComposeAll, Stamp, LeftOpen, Composable, Before, Wants, Names;
      PassedOnComposed(prog[k].own, Before(prog, k), n);
    }
  }

  lemma OwnAlone(own: seq<MethodSlot>, n: Name)
    requires !Overtaken(own, n)
    ensures LeftOpen([own], n) ==> Names(own, n)
  {}

  // ----- over the graph

  /** The declaration, or a role it is made of, has code for the name. */
  ghost predicate HasBody(prog: Program, k: nat, n: Name)
    requires ProgramOk(prog) && k < |prog|
    decreases k
  {
    assert DeclOk(prog, k);
    Defines(prog[k].own, n) || exists u :: u in prog[k].uses && HasBody(prog, u, n)
  }

  /** The declaration, or a role it is made of, requires the name. */
  ghost predicate Asked(prog: Program, k: nat, n: Name)
    requires ProgramOk(prog) && k < |prog|
    decreases k
  {
    assert DeclOk(prog, k);
    Wants(prog[k].own, n) || exists u :: u in prog[k].uses && Asked(prog, u, n)
  }

  lemma DirectDefiner(prog: Program, k: nat, n: Name)
    requires ProgramOk(prog) && k < |prog| && Definers(Before(prog, k), n) != {}
    ensures HasBody(prog, k, n)
  {
    hide TableOf, Defines;
    var p :| p in Definers(Before(prog, k), n);
    if p > 0 {
      BeforeAt(prog, k, p);
      var u := prog[k].uses[p - 1];
      TableShape(prog, u);
      assert HasBody(prog, u, n);
    }
  }

  /** A requirement that no code meets is still in the table of every role above. */
  lemma {:induction false} AskedIsInTable(prog: Program, k: nat, n: Name)
    requires ProgramOk(prog) && k < |prog| && Asked(prog, k, n) && !HasBody(prog, k, n)
    ensures Wants(TableOf(prog, k), n)
    decreases k
  {
    assert DeclOk(prog, k);
    PassedOnExactly(prog, k, n);
    if !Wants(prog[k].own, n) {
      OwnWants(prog[k].own, n);
      AskedIsLeftOpen(prog, k, n);
    }
  }

  lemma {:induction false} AskedIsLeftOpen(prog: Program, k: nat, n: Name)
    requires ProgramOk(prog) && k < |prog| && Asked(prog, k, n) && !HasBody(prog, k, n)
    ensures Mentioned(Before(prog, k), n) && Definers(Before(prog, k), n) == {}
    decreases k, 0
  {
    BeforeComposable(prog, k);
    assert DeclOk(prog, k);
    if Definers(Before(prog, k), n) != {} { DirectDefiner(prog, k, n); }
    if Wants(prog[k].own, n) {
      WantedIsMentioned(Before(prog, k), 0, n);
    } else {
      var u :| u in prog[k].uses && Asked(prog, u, n);
      var i: nat :| i < |prog[k].uses| && prog[k].uses[i] == u;
      hide TableOf, Before, Composable, Definers, Wants, DeclOk, Mentioned;
      BeforeAt(prog, k, i + 1);
      AskedIsInTable(prog, u, n);
      WantedIsMentioned(Before(prog, k), i + 1, n);
    }
  }

  lemma WantedIsMentioned(before: seq<seq<MethodSlot>>, p: nat, n: Name)
    requires p < |before| && Wants(before[p], n)
    ensures Mentioned(before, n)
  {
    assert Names(before[p], n);
  }

  lemma OvertakenWants(s: seq<MethodSlot>, n: Name)
    requires CodeAhead(s) && Overtaken(s, n)
    ensures Wants(s, n)
  {
    var j: nat :| OvertakenAt(s, j) && s[j].name == n;
    OvertakenWithin(s, j);
  }

  lemma NamedWants(s: seq<MethodSlot>, n: Name)
    requires Names(s, n) && !Defines(s, n)
    ensures Wants(s, n)
  {
    var i :| 0 <= i < |s| && s[i].name == n;
    assert s[i].payload.cv == None;
  }

  /** A name that is left open is wanted by one of the tables. */
  lemma SomeoneWants(before: seq<seq<MethodSlot>>, n: Name) returns (p: nat)
    requires Composable(before) && LeftOpen(before, n)
    ensures p < |before| && Wants(before[p], n)
  {
    ComposableEmpty(before);
    hide CodeAhead, RequirementsEmpty, Wants, Defines, Names, Overtaken;
    if Lost(before, n) {
      p :| p < |before| && Overtaken(before[p], n);
      OvertakenWants(before[p], n);
    } else {
      p :| p < |before| && Names(before[p], n);
      assert p !in Definers(before, n);
      NamedWants(before[p], n);
    }
  }

  /** A table asks only for what a role below has required. */
  lemma {:induction false} LeftOpenIsAsked(prog: Program, k: nat, n: Name)
    requires ProgramOk(prog) && k < |prog| && LeftOpen(Before(prog, k), n)
    ensures Asked(prog, k, n)
    decreases k
  {
    BeforeComposable(prog, k);
    var p := SomeoneWants(Before(prog, k), n);
    if p > 0 {
      var u := prog[k].uses[p - 1];
      BeforeAt(prog, k, p);
      hide TableOf, Before, LeftOpen, Wants;
      PassedOnExactly(prog, u, n);
      if !Wants(prog[u].own, n) { LeftOpenIsAsked(prog, u, n); }
      assert Asked(prog, u, n);
    }
  }

  // ----- told from the declarations

  /** The declaration itself or one of the roles that it names has written the method. */
  ghost predicate WrittenNearby(prog: Program, k: nat, n: Name)
    requires ProgramOk(prog) && k < |prog|
  {
    assert DeclOk(prog, k);
    Defines(prog[k].own, n) || exists u :: u in prog[k].uses && Defines(prog[u].own, n)
  }

  /** What the declaration asks of those that compose it: what it requires itself, and
      what a role that it names asks for and no such role has written, or what is lost. */
  ghost predicate Asks(prog: Program, k: nat, n: Name)
    requires ProgramOk(prog) && k < |prog|
    decreases k
  {
    assert DeclOk(prog, k);
    Wants(prog[k].own, n) ||
    (!Names(prog[k].own, n) &&
     (Lost(Before(prog, k), n) || (!WrittenNearby(prog, k, n) && exists u :: u in prog[k].uses && Asks(prog, u, n))))
  }

  /** The declaration or a role that it names asks for the method. */
  ghost predicate AskedNearby(prog: Program, k: nat, n: Name)
    requires ProgramOk(prog) && k < |prog|
  {
    assert DeclOk(prog, k);
    Wants(prog[k].own, n) || exists u :: u in prog[k].uses && Asks(prog, u, n)
  }

  lemma DefinersNearby(prog: Program, k: nat, n: Name)
    requires ProgramOk(prog) && k < |prog|
    ensures Definers(Before(prog, k), n) != {} <==> WrittenNearby(prog, k, n)
  {
    BeforeComposable(prog, k);
    assert DeclOk(prog, k);
    hide TableOf, Defines, Composable;
    var before, uses := Before(prog, k), prog[k].uses;
    forall p: nat | 0 < p < |before|
      ensures uses[p - 1] in uses && uses[p - 1] < k && (Defines(before[p], n) <==> Defines(prog[uses[p - 1]].own, n))
    {
      BeforeAt(prog, k, p);
      TableShape(prog, uses[p - 1]);
    }
    if Definers(before, n) != {} {
      var p :| p in Definers(before, n);
    }
    if WrittenNearby(prog, k, n) {
      if Defines(prog[k].own, n) {
        assert 0 in Definers(before, n);
      } else {
        var u :| u in uses && Defines(prog[u].own, n);
        var i: nat :| i < |uses| && uses[i] == u;
        assert i + 1 in Definers(before, n);
      }
    }
  }

  lemma NobodyDefinesNearby(prog: Program, k: nat, n: Name)
    requires ProgramOk(prog) && k < |prog| && !WrittenNearby(prog, k, n)
    ensures forall p: nat :: p < |Before(prog, k)| ==> !Defines(Before(prog, k)[p], n)
  {
    DefinersNearby(prog, k, n);
    hide WrittenNearby, Defines, Before;
    forall p: nat | p < |Before(prog, k)| ensures !Defines(Before(prog, k)[p], n) {
      assert p !in Definers(Before(prog, k), n);
    }
  }

  lemma MentionedIsAsked(prog: Program, k: nat, n: Name)
    requires ProgramOk(prog) && k < |prog| && !WrittenNearby(prog, k, n) && Mentioned(Before(prog, k), n)
    requires forall u :: u in prog[k].uses && u < |prog| && Wants(TableOf(prog, u), n) ==> Asks(prog, u, n)
    ensures AskedNearby(prog, k, n)
  {
    BeforeComposable(prog, k);
    NobodyDefinesNearby(prog, k, n);
    assert DeclOk(prog, k);
    var before, uses := Before(prog, k), prog[k].uses;
    var p: nat :| p < |before| && Names(before[p], n);
    NamedWants(before[p], n);
    hide TableOf, Before, Defines, Composable, WrittenNearby, Asks, Wants, Names, Mentioned;
    if p > 0 {
      BeforeAt(prog, k, p);
      assert Asks(prog, uses[p - 1], n);
    }
  }

  lemma AskedIsMentioned(prog: Program, k: nat, n: Name)
    requires ProgramOk(prog) && k < |prog| && AskedNearby(prog, k, n)
    requires forall u :: u in prog[k].uses && u < |prog| && Asks(prog, u, n) ==> Wants(TableOf(prog, u), n)
    ensures Mentioned(Before(prog, k), n)
  {
    BeforeComposable(prog, k);
    assert DeclOk(prog, k);
    var uses := prog[k].uses;
    if Wants(prog[k].own, n) {
      WantedIsMentioned(Before(prog, k), 0, n);
    } else {
      var u :| u in uses && Asks(prog, u, n);
      var i: nat :| i < |uses| && uses[i] == u;
      hide TableOf, Before, Defines, Composable, Asks, Wants, Names, Mentioned;
      BeforeAt(prog, k, i + 1);
      WantedIsMentioned(Before(prog, k), i + 1, n);
    }
  }

  /** Where nothing near by has the code, the name is mentioned exactly when it is asked for. */
  lemma MentionedNearby(prog: Program, k: nat, n: Name)
    requires ProgramOk(prog) && k < |prog| && !WrittenNearby(prog, k, n)
    requires forall u :: u in prog[k].uses && u < |prog| ==> (Wants(TableOf(prog, u), n) <==> Asks(prog, u, n))
    ensures Mentioned(Before(prog, k), n) <==> AskedNearby(prog, k, n)
  {
    hide TableOf, Before, WrittenNearby, AskedNearby, Asks, Wants, Mentioned;
    if Mentioned(Before(prog, k), n) { MentionedIsAsked(prog, k, n); }
    if AskedNearby(prog, k, n) { AskedIsMentioned(prog, k, n); }
  }

  /** The table of a role wants exactly what the role asks for. */
  lemma {:induction false} TableAsks(prog: Program, k: nat, n: Name)
    requires ProgramOk(prog) && k < |prog|
    ensures Wants(TableOf(prog, k), n) <==> Asks(prog, k, n)
    decreases k, 1
  {
    assert DeclOk(prog, k);
    PassedOnExactly(prog, k, n);
    OpenExactly(prog, k, n);
    OwnWants(prog[k].own, n);
    hide TableOf, Before, LeftOpen, WrittenNearby, Wants, Names;
  }

  /** A composition leaves a name open exactly when it is lost in a table, or asked for
      near by while no declaration near by has written it. */
  lemma {:induction false} OpenExactly(prog: Program, k: nat, n: Name)
    requires ProgramOk(prog) && k < |prog|
    ensures LeftOpen(Before(prog, k), n) <==>
            Lost(Before(prog, k), n) || (!WrittenNearby(prog, k, n) && AskedNearby(prog, k, n))
    decreases k, 0
  {
    assert DeclOk(prog, k);
    DefinersNearby(prog, k, n);
    if !WrittenNearby(prog, k, n) {
      hide TableOf, Before, Asks, Wants, WrittenNearby;
      forall u | u in prog[k].uses && u < |prog| ensures Wants(TableOf(prog, u), n) <==> Asks(prog, u, n) {
        TableAsks(prog, u, n);
      }
      MentionedNearby(prog, k, n);
    }
  }

  // ----- the verdict

  /** The class is told that a method is missing exactly when it should be: a role asks
      for it, nobody has code for it, and it is not inherited. */
  ghost predicate RightVerdict(prog: Program, c: nat, inherited: set<Name>, n: Name)
    requires ProgramOk(prog) && c < |prog|
  {
    CountsAsMissing(Before(prog, c), inherited, n) <==> Asked(prog, c, n) && !HasBody(prog, c, n) && n !in inherited
  }

  lemma ExplicitHasBody(prog: Program, c: nat, n: Name)
    requires ProgramOk(prog) && c < |prog| && HasExplicit(prog[c].own, n)
    ensures HasBody(prog, c, n)
  {
    assert Defines(prog[c].own, n);
  }

  /** Nothing that is missing is overlooked, whatever the graph of roles; and the verdict
      on a name is wrong exactly when some code is there for it, the class neither
      inherits nor wrote it, and either a table has lost a requirement for it, or the class
      or a role that it names asks for it while only roles of those roles have written it. */
  lemma VerdictRightIff(prog: Program, c: nat, inherited: set<Name>, n: Name)
    requires ProgramOk(prog) && c < |prog|
    ensures RightVerdict(prog, c, inherited, n) <==>
            !(HasBody(prog, c, n) && n !in inherited && !HasExplicit(prog[c].own, n) &&
              (Lost(Before(prog, c), n) || (!WrittenNearby(prog, c, n) && AskedNearby(prog, c, n))))
    ensures Asked(prog, c, n) && !HasBody(prog, c, n) && n !in inherited ==> CountsAsMissing(Before(prog, c), inherited, n)
  {
    BeforeComposable(prog, c);
    OpenExactly(prog, c, n);
    if LeftOpen(Before(prog, c), n) { LeftOpenIsAsked(prog, c, n); }
    if Asked(prog, c, n) && !HasBody(prog, c, n) { AskedIsLeftOpen(prog, c, n); }
    if HasExplicit(prog[c].own, n) { ExplicitHasBody(prog, c, n); }
    hide Before, Asked, HasBody, HasExplicit, Mentioned, Lost, Definers, Composable, WrittenNearby, AskedNearby;
  }

  lemma FlatIsNotLost(prog: Program, c: nat, n: Name)
    requires ProgramOk(prog) && c < |prog| && forall u :: u in prog[c].uses ==> u < |prog| && prog[u].uses == []
    ensures !Lost(Before(prog, c), n)
  {
    assert DeclOk(prog, c);
    var before := Before(prog, c);
    OwnShape(prog[c].own);
    hide Overtaken;
    forall p: nat | p < |before| ensures !Overtaken(before[p], n) {
      if p > 0 {
        BeforeAt(prog, c, p);
        var u := prog[c].uses[p - 1];
        assert DeclOk(prog, u);
        OwnShape(prog[u].own);
      }
    }
  }

  lemma FlatIsWrittenNearby(prog: Program, c: nat, n: Name)
    requires ProgramOk(prog) && c < |prog| && HasBody(prog, c, n)
    requires forall u :: u in prog[c].uses ==> u < |prog| && prog[u].uses == []
    ensures WrittenNearby(prog, c, n)
  {
    assert DeclOk(prog, c);
    if !Defines(prog[c].own, n) {
      var u :| u in prog[c].uses && HasBody(prog, u, n);
      assert Defines(prog[u].own, n);
    }
  }

  /** As long as the roles of a class compose no roles themselves, all verdicts are right. */
  lemma FlatIsJudgedRight(prog: Program, c: nat, inherited: set<Name>, n: Name)
    requires ProgramOk(prog) && c < |prog| && forall u :: u in prog[c].uses ==> u < |prog| && prog[u].uses == []
    ensures RightVerdict(prog, c, inherited, n)
  {
    VerdictRightIff(prog, c, inherited, n);
    FlatIsNotLost(prog, c, n);
    if HasBody(prog, c, n) { FlatIsWrittenNearby(prog, c, n); }
    hide RightVerdict, HasBody, Before, Lost, WrittenNearby, AskedNearby;
  }

  // ----- the symbol tables

  ghost function Used(prog: Program, stashes: seq<Symbols>, k: nat): seq<Symbols>
    requires ProgramOk(prog) && k < |prog| == |stashes|
  {
    assert DeclOk(prog, k);
    var uses := prog[k].uses;
    seq(|uses|, i requires 0 <= i < |uses| => assert uses[i] in uses; stashes[uses[i]])
  }

  ghost function OwnCell(prog: Program, k: nat, n: Name): Cell
    requires k < |prog|
  {
    if n in prog[k].entries then Code(prog[k].entries[n]) else Absent
  }

  /** What sealing declaration `k` made of the name. */
  ghost function Installed(prog: Program, stashes: seq<Symbols>, k: nat, n: Name, isRole: bool, offsets: Relocation): Outcome
    requires ProgramOk(prog) && k < |prog| == |stashes|
  {
    InstallName(n, OwnCell(prog, k, n), Used(prog, stashes, k), HasExplicit(prog[k].own, n), isRole, offsets)
  }

  /** The symbol table of the sealed declaration, which composed without a conflict. */
  ghost predicate StashOk(prog: Program, stashes: seq<Symbols>, k: nat, n: Name, isRole: bool, offsets: Relocation)
    requires ProgramOk(prog) && k < |prog| == |stashes|
  {
    var out := Installed(prog, stashes, k, n, isRole, offsets);
    out.Done? && out.cell == if n in stashes[k] then Code(stashes[k][n]) else Absent
  }

  /** The entry is what the stash that provides it wrote, up to relocation. */
  ghost predicate Genuine(prog: Program, cv: Cv, n: Name) {
    && cv.provider < |prog| && n in prog[cv.provider].entries
    && prog[cv.provider].entries[n].isMethod == cv.isMethod && prog[cv.provider].entries[n].body == cv.body
  }

  ghost predicate GenuineCell(prog: Program, c: Cell, n: Name) {
    c.Code? ==> Genuine(prog, c.cv, n)
  }

  lemma EntryGenuine(prog: Program, n: Name, c: Cell, incoming: Cv, explicit: bool, isRole: bool, offsets: Relocation)
    requires n != NEW && GenuineCell(prog, c, n) && Genuine(prog, incoming, n)
    ensures var out := InstallEntry(n, c, incoming, explicit, isRole, offsets);
            out.Done? ==> GenuineCell(prog, out.cell, n) &&
                          (OwnMethod(out.cell) <==> OwnMethod(c) || (incoming.isMethod && incoming.body.Some?))
  {}

  ghost predicate SomeHas(roles: seq<Symbols>, n: Name) {
    exists i: nat :: i < |roles| && HasMethod(roles[i], n)
  }

  lemma {:induction false} NameGenuine(prog: Program, n: Name, cell: Cell, roles: seq<Symbols>, explicit: bool, isRole: bool, offsets: Relocation)
    requires n != NEW && GenuineCell(prog, cell, n) && forall r :: r in roles && n in r ==> Genuine(prog, r[n], n)
    ensures var out := InstallName(n, cell, roles, explicit, isRole, offsets);
            out.Done? ==> GenuineCell(prog, out.cell, n) && (OwnMethod(out.cell) <==> OwnMethod(cell) || SomeHas(roles, n))
  {
    hide InstallEntry, Genuine, OwnMethod;
    if roles != [] {
      var k := |roles| - 1;
      var front, last := roles[..k], roles[k];
      assert last in roles;
      NameGenuine(prog, n, cell, front, explicit, isRole, offsets);
      SomeHasLast(roles, n);
      var mid := InstallName(n, cell, front, explicit, isRole, offsets);
      if mid.Done? && n in last { EntryGenuine(prog, n, mid.cell, last[n], explicit, isRole, offsets); }
    }
  }

  lemma SomeHasLast(roles: seq<Symbols>, n: Name)
    requires roles != []
    ensures SomeHas(roles, n) <==> SomeHas(roles[..|roles| - 1], n) || HasMethod(roles[|roles| - 1], n)
  {
    var k := |roles| - 1;
    assert forall i: nat :: i < k ==> roles[..k][i] == roles[i];
    if SomeHas(roles[..k], n) {
      var i: nat :| i < k && HasMethod(roles[..k][i], n);
      assert HasMethod(roles[i], n);
    }
  }

  /** All declarations up to `k` are sealed. */
  ghost predicate SealedUpTo(prog: Program, stashes: seq<Symbols>, k: nat, n: Name, isRole: bool, offsets: seq<Relocation>)
    requires ProgramOk(prog) && |prog| == |stashes| == |offsets| && k < |prog|
  {
    forall j: nat {:trigger stashes[j]} :: j <= k ==> StashOk(prog, stashes, j, n, isRole || j < k, offsets[j])
  }

  /** What a declaration can call is exactly what it, or a role it is made of, wrote:
      the bodies that the tables leave out are installed all the same. */
  lemma {:induction false} BodiesAreInstalled(prog: Program, stashes: seq<Symbols>, k: nat, n: Name, isRole: bool, offsets: seq<Relocation>)
    requires ProgramOk(prog) && |prog| == |stashes| == |offsets| && k < |prog| && n != NEW
    requires SealedUpTo(prog, stashes, k, n, isRole, offsets)
    ensures HasMethod(stashes[k], n) <==> HasBody(prog, k, n)
    ensures n in stashes[k] ==> Genuine(prog, stashes[k][n], n)
    decreases k
  {
    assert DeclOk(prog, k);
    var uses, used := prog[k].uses, Used(prog, stashes, k);
    assert stashes[k] == stashes[k];
    hide InstallName, HasExplicit, Genuine;
    forall i: nat | i < |uses|
      ensures uses[i] < k && used[i] == stashes[uses[i]]
      ensures HasMethod(used[i], n) <==> HasBody(prog, uses[i], n)
      ensures n in used[i] ==> Genuine(prog, used[i][n], n)
    {
      assert uses[i] in uses;
      BelowIsSealed(prog, stashes, k, uses[i], n, isRole, offsets);
      BodiesAreInstalled(prog, stashes, uses[i], n, true, offsets);
    }
    OwnGenuine(prog, k, n);
    NameGenuine(prog, n, OwnCell(prog, k, n), used, HasExplicit(prog[k].own, n), isRole, offsets[k]);
    BodyBelow(prog, k, used, n);
  }

  lemma BelowIsSealed(prog: Program, stashes: seq<Symbols>, k: nat, u: nat, n: Name, isRole: bool, offsets: seq<Relocation>)
    requires ProgramOk(prog) && |prog| == |stashes| == |offsets| && u < k < |prog|
    requires SealedUpTo(prog, stashes, k, n, isRole, offsets)
    ensures SealedUpTo(prog, stashes, u, n, true, offsets)
  {
    hide StashOk;
    forall j: nat | j <= u ensures StashOk(prog, stashes, j, n, true, offsets[j]) { assert stashes[j] == stashes[j]; }
  }

  lemma OwnGenuine(prog: Program, k: nat, n: Name)
    requires ProgramOk(prog) && k < |prog|
    ensures GenuineCell(prog, OwnCell(prog, k, n), n)
    ensures OwnMethod(OwnCell(prog, k, n)) <==> Defines(prog[k].own, n)
  {
    assert DeclOk(prog, k);
  }

  lemma BodyBelow(prog: Program, k: nat, used: seq<Symbols>, n: Name)
    requires ProgramOk(prog) && k < |prog| && |used| == |prog[k].uses|
    requires forall i: nat :: i < |used| ==> prog[k].uses[i] < k && (HasMethod(used[i], n) <==> HasBody(prog, prog[k].uses[i], n))
    ensures HasBody(prog, k, n) <==> Defines(prog[k].own, n) || SomeHas(used, n)
  {
    var uses := prog[k].uses;
    hide HasMethod;
    if SomeHas(used, n) {
      var i: nat :| i < |used| && HasMethod(used[i], n);
      assert uses[i] in uses && HasBody(prog, uses[i], n);
    }
    if u :| u in uses && u < |prog| && HasBody(prog, u, n) {
      var i: nat :| i < |uses| && uses[i] == u;
      assert HasMethod(used[i], n);
    }
  }

  // ----- code that only a role of a role has

  const FOO: Name := 5

  function FooBody(): Cv {
    Cv(0, Some(0), true, 0)
  }

  /** Y, Z, X and C of the program below. */
  function Transitive(): Program {
    [Decl([Slot(FOO, 0, Method(Some(FooBody()), None))], map[FOO := FooBody()], []),
     Decl([], map[], [0]),
     Decl([Slot(FOO, 0, Method(None, None))], map[FOO := Cv(2, None, true, 0)], []),
     Decl([], map[], [2, 1])]
  }

  lemma TransitiveOk()
    ensures ProgramOk(Transitive())
  {
    var prog := Transitive();
    forall k: nat | k < 4 ensures DeclOk(prog, k) {
      var own := prog[k].own;
      if k == 0 { assert own[0].payload.cv.Some? && Defines(own, FOO); }
    }
  }

  lemma TransitiveHasBody()
    requires ProgramOk(Transitive())
    ensures HasBody(Transitive(), 3, FOO)
  {
    var prog := Transitive();
    assert prog[0].own[0].name == FOO && HasBody(prog, 0, FOO);
    assert 0 in prog[1].uses && HasBody(prog, 1, FOO);
    assert 1 in prog[3].uses;
  }

  lemma TransitiveAsks()
    requires ProgramOk(Transitive())
    ensures AskedNearby(Transitive(), 3, FOO) && !WrittenNearby(Transitive(), 3, FOO)
  {
    var prog := Transitive();
    hide Before, Lost;
    assert prog[2].own[0].name == FOO && Wants(prog[2].own, FOO) && Asks(prog, 2, FOO);
    assert 2 in prog[3].uses;
  }

  /** `role Y { method foo {} } role Z :implements(Y) {} role X { method foo; }
      class C :implements(X, Z) {}` is told that foo is missing, although Z has it
      installed. */
  lemma TransitiveMisreported()
    ensures ProgramOk(Transitive()) && CountsAsMissing(Before(Transitive(), 3), {}, FOO)
    ensures HasBody(Transitive(), 1, FOO) && HasBody(Transitive(), 3, FOO) && !RightVerdict(Transitive(), 3, {}, FOO)
  {
    var prog := Transitive();
    TransitiveOk();
    TransitiveHasBody();
    TransitiveAsks();
    BeforeComposable(prog, 3);
    assert 0 in prog[1].uses && HasBody(prog, 0, FOO);
    hide Before, Lost, AskedNearby, WrittenNearby;
    VerdictRightIff(prog, 3, {}, FOO);
  }
}

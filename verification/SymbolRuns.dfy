/** Symbol tables over a whole compilation: definitions, assignments, builtin functions, captures
    (vm/symbol_table.go, and the places in vm/compiler.go that mark a variable as assigned). */
module SymbolRuns {
  import opened Wrappers
  import opened Symbols

  // ----- assigning -----

  /** The captures of a variable are the same symbol as its definition. */
  predicate IsCopy(e: Symbol, s: Symbol) {
    e.scope == Local && s.scope == Local && e.name == s.name && e.index == s.index
  }

  function MarkCopies(free: seq<Symbol>, s: Symbol): (r: seq<Symbol>)
    ensures |r| == |free|
  {
    seq(|free|, i requires 0 <= i < |free| => if IsCopy(free[i], s) then free[i].(hasValue := true) else free[i])
  }

  predicate Assignable(c: Chain, k: nat, name: string) {
    k < |c| && name in c[k].store && c[k].store[name].scope == Local
  }

  /** Is table f that of a function written directly inside the function that table k is in? */
  predicate Inside(c: Chain, f: nat, k: nat) { k < f < |c| && !c[f].block && FuncOf(c, f - 1) == FuncOf(c, k) }

  /** The local variable that table k defines is marked as assigned. */
  function Assign(c: Chain, k: nat, name: string): (r: Chain)
    requires Assignable(c, k, name)
    ensures |r| == |c|
  {
    var s := c[k].store[name];
    seq(|c|, j requires 0 <= j < |c| =>
      if j == k then c[k].(store := c[k].store[name := s.(hasValue := true)])
      else if Inside(c, j, k) then c[j].(free := MarkCopies(c[j].free, s))
      else c[j])
  }

  predicate SameSymbol(s: Symbol, t: Symbol) { t == s.(hasValue := t.hasValue) && (s.hasValue ==> t.hasValue) }

  /** t' differs from t in variables that have been marked. */
  ghost predicate Marked(t: Table, t': Table) {
    && t'.block == t.block && t'.numDefinition == t.numDefinition && t'.maxDefinition == t.maxDefinition
    && |t'.free| == |t.free| && (forall i :: 0 <= i < |t.free| ==> SameSymbol(t.free[i], t'.free[i]))
    && t'.store.Keys == t.store.Keys && (forall x <- t.store :: SameSymbol(t.store[x], t'.store[x]))
  }

  ghost predicate AllMarked(c: Chain, c': Chain) { |c'| == |c| && forall k: nat :: k < |c| ==> Marked(c[k], c'[k]) }

  lemma AssignMarks(c: Chain, k: nat, name: string)
    requires Assignable(c, k, name)
    ensures AllMarked(c, Assign(c, k, name))
  {
  }

  lemma MarkedPrefix(c: Chain, c': Chain, n: nat)
    requires AllMarked(c, c') && 0 < n <= |c|
    ensures AllMarked(c[..n], c'[..n])
  {
    hide Marked;
  }

  lemma MarkedPlaces(c: Chain, c': Chain, k: nat)
    requires AllMarked(c, c') && k < |c|
    ensures FuncOf(c', k) == FuncOf(c, k) && Base(c', k) == Base(c, k)
  {
    forall j: nat | j < |c| ensures c'[j].block == c[j].block && c'[j].numDefinition == c[j].numDefinition {
      assert Marked(c[j], c'[j]);
    }
    FuncSame(c, c', k);
    BaseSame(c, c', k);
  }

  /** From inside, names mean what they meant. */
  lemma {:induction false} MarkedBinding(c: Chain, c': Chain, x: string)
    requires AllMarked(c, c')
    ensures Binding(c', x, true) == Binding(c, x, true)
    decreases |c|
  {
    var n := |c| - 1;
    assert Marked(c[n], c'[n]);
    MarkedPlaces(c, c', n);
    if n > 0 {
      MarkedPrefix(c, c', n);
      MarkedBinding(c[..n], c'[..n], x);
    }
  }

  lemma {:induction false} MarkedTarget(c: Chain, c': Chain, s: Symbol, s': Symbol)
    requires AllMarked(c, c') && SameSymbol(s, s')
    ensures Target(c', s') == Target(c, s)
    decreases |c|
  {
    var n := |c| - 1;
    var f := FuncOf(c, n);
    MarkedPlaces(c, c', n);
    assert Marked(c[f], c'[f]);
    if s.scope == Free && f > 0 && s.index < |c[f].free| {
      MarkedPrefix(c, c', f);
      MarkedTarget(c[..f], c'[..f], c[f].free[s.index], c'[f].free[s.index]);
    }
  }

  lemma MarkedEntry(c: Chain, c': Chain, k: nat, x: string)
    requires AllMarked(c, c') && k < |c| && x in c[k].store && EntryOk(c, k, x)
    ensures x in c'[k].store && EntryOk(c', k, x)
  {
    hide Binding, Target;
    assert Marked(c[k], c'[k]);
    MarkedPlaces(c, c', k);
    var s := c[k].store[x];
    if s.scope == Free {
      MarkedPrefix(c, c', k);
      MarkedBinding(c[..k], c'[..k], x);
      MarkedTarget(c[..k], c'[..k], c[k].free[s.index], c'[k].free[s.index]);
    }
  }

  lemma MarkedInv(c: Chain, c': Chain)
    requires Inv(c) && AllMarked(c, c')
    ensures Inv(c')
  {
    hide EntryOk;
    assert Marked(c[0], c'[0]);
    forall k | 0 <= k < |c'| ensures TableOk(c', k) {
      assert TableOk(c, k) && Marked(c[k], c'[k]);
      forall x | x in c'[k].store ensures EntryOk(c', k, x) { MarkedEntry(c, c', k, x); }
    }
  }

  lemma MarkedSlots(c: Chain, c': Chain)
    requires Slots(c) && AllMarked(c, c')
    ensures Slots(c')
  {
    hide AllMarked, Marked, Base, FuncOf;
    MarkedCounts(c, c');
    MarkedRange(c, c');
    MarkedDiffer(c, c');
  }

  lemma MarkedCounts(c: Chain, c': Chain)
    requires Counts(c) && AllMarked(c, c')
    ensures Counts(c')
  {
    hide Base, FuncOf;
    forall k: nat | k < |c'| ensures CountOk(c', k) {
      MarkedPlaces(c, c', k);
      assert CountOk(c, k) && Marked(c[k], c'[k]) && Marked(c[FuncOf(c, k)], c'[FuncOf(c, k)]);
    }
  }

  lemma MarkedRange(c: Chain, c': Chain)
    requires InRange(c) && AllMarked(c, c')
    ensures InRange(c')
  {
    hide Base, FuncOf;
    forall k: nat, x | k < |c'| && x in c'[k].store ensures SlotOk(c', k, x) {
      MarkedPlaces(c, c', k);
      assert Marked(c[k], c'[k]) && Marked(c[0], c'[0]) && SlotOk(c, k, x);
    }
  }

  lemma MarkedDiffer(c: Chain, c': Chain)
    requires LocalsDiffer(c) && GlobalsDiffer(c) && AllMarked(c, c')
    ensures LocalsDiffer(c') && GlobalsDiffer(c')
  {
    forall k: nat, x, t: Scope | IsDef(c', k, x, t)
      ensures IsDef(c, k, x, t) && c[k].store[x].index == c'[k].store[x].index
    {
      assert Marked(c[k], c'[k]);
    }
  }

  // ----- builtin functions -----

  /** DefineBuiltin: whatever the current table, the root gets the name. */
  function DefineBuiltin(c: Chain, index: nat, name: string): (r: Chain)
    ensures |r| == |c|
  {
    c[0 := c[0].(store := c[0].store[name := Symbol(name, Builtin, index, false)])]
  }

  lemma BuiltinPrefix(c: Chain, index: nat, name: string, n: nat)
    requires 0 < n <= |c|
    ensures DefineBuiltin(c, index, name)[..n] == DefineBuiltin(c[..n], index, name)
  {
  }

  lemma BuiltinPlaces(c: Chain, index: nat, name: string, k: nat)
    requires k < |c|
    ensures var c' := DefineBuiltin(c, index, name); FuncOf(c', k) == FuncOf(c, k) && Base(c', k) == Base(c, k)
  {
    FuncSame(c, DefineBuiltin(c, index, name), k);
    BaseSame(c, DefineBuiltin(c, index, name), k);
  }

  /** A name that is bound inside a function keeps its binding. */
  lemma {:induction false} BuiltinBinding(c: Chain, index: nat, name: string, x: string, recur: bool)
    requires Inv(c) && Binding(c, x, recur).Some? && Binding(c, x, recur).value.LocalSlot?
    ensures Binding(DefineBuiltin(c, index, name), x, recur) == Binding(c, x, recur)
    decreases |c|
  {
    hide Inv;
    var n := |c| - 1;
    BuiltinPlaces(c, index, name, n);
    if n > 0 {
      BuiltinPrefix(c, index, name, n);
      InvPrefix(c, n);
      if !(x in c[n].store && c[n].store[x].scope != Free && Usable(c[n].store[x], recur)) {
        BuiltinBinding(c[..n], index, name, x, true);
      }
    } else {
      RootHasNoLocal(c, x);
    }
  }

  lemma RootHasNoLocal(c: Chain, x: string)
    requires Inv(c) && x in c[0].store
    ensures c[0].store[x].scope == Global || c[0].store[x].scope == Builtin
  {
    assert TableOk(c, 0) && EntryOk(c, 0, x);
  }

  lemma {:induction false} BuiltinTarget(c: Chain, index: nat, name: string, s: Symbol)
    ensures Target(DefineBuiltin(c, index, name), s) == Target(c, s)
    decreases |c|
  {
    var f := FuncOf(c, |c| - 1);
    BuiltinPlaces(c, index, name, |c| - 1);
    if s.scope == Free && f > 0 && s.index < |c[f].free| {
      BuiltinPrefix(c, index, name, f);
      BuiltinTarget(c[..f], index, name, c[f].free[s.index]);
    }
  }

  /** What is captured is a local variable. */
  lemma {:induction false} CapturedIsLocal(c: Chain, s: Symbol)
    requires Inv(c) && (s.scope == Local || s.scope == Free) && Target(c, s).Some?
    ensures Target(c, s).value.LocalSlot?
    decreases |c|
  {
    hide Inv;
    var f := FuncOf(c, |c| - 1);
    if s.scope == Free {
      InvPrefix(c, f);
      TableCaptures(c, f);
      CapturedIsLocal(c[..f], c[f].free[s.index]);
    }
  }

  lemma TableCaptures(c: Chain, k: nat)
    requires Inv(c) && k < |c|
    ensures CapturesOk(c[k])
  {
    assert TableOk(c, k);
  }

  lemma BuiltinEntry(c: Chain, index: nat, name: string, k: nat, x: string)
    requires Inv(c) && k < |c| && x in c[k].store && !(k == 0 && x == name)
    ensures x in DefineBuiltin(c, index, name)[k].store && EntryOk(DefineBuiltin(c, index, name), k, x)
  {
    hide Binding, Target, Inv;
    TableCaptures(c, k);
    EntryThere(c, k, x);
    BuiltinPlaces(c, index, name, k);
    var s := c[k].store[x];
    if s.scope == Free {
      InvPrefix(c, k);
      BuiltinPrefix(c, index, name, k);
      BuiltinTarget(c[..k], index, name, c[k].free[s.index]);
      CapturedIsLocal(c[..k], c[k].free[s.index]);
      BuiltinBinding(c[..k], index, name, x, true);
    }
  }

  lemma EntryThere(c: Chain, k: nat, x: string)
    requires Inv(c) && k < |c| && x in c[k].store
    ensures EntryOk(c, k, x)
  {
    assert TableOk(c, k);
  }

  lemma BuiltinInv(c: Chain, index: nat, name: string)
    requires Inv(c)
    ensures Inv(DefineBuiltin(c, index, name))
  {
    hide EntryOk;
    var c' := DefineBuiltin(c, index, name);
    forall k: nat | k < |c'| ensures TableOk(c', k) {
      TableCaptures(c, k);
      forall x | x in c'[k].store ensures EntryOk(c', k, x) {
        if k == 0 && x == name { NewBuiltin(c, index, name); } else { BuiltinEntry(c, index, name, k, x); }
      }
    }
  }

  lemma NewBuiltin(c: Chain, index: nat, name: string)
    ensures EntryOk(DefineBuiltin(c, index, name), 0, name)
  {
  }

  lemma BuiltinSlots(c: Chain, index: nat, name: string)
    requires Slots(c)
    ensures Slots(DefineBuiltin(c, index, name))
  {
    hide Base, FuncOf;
    var c' := DefineBuiltin(c, index, name);
    forall k: nat | k < |c'| ensures CountOk(c', k) {
      BuiltinPlaces(c, index, name, k);
      assert CountOk(c, k);
    }
    forall k: nat, x | k < |c'| && x in c'[k].store ensures SlotOk(c', k, x) {
      BuiltinPlaces(c, index, name, k);
      if !(k == 0 && x == name) { assert SlotOk(c, k, x); }
    }
    forall k: nat, x, t: Scope | IsDef(c', k, x, t) && t != Builtin
        ensures IsDef(c, k, x, t) && c'[k].store[x] == c[k].store[x] {
    }
  }

  // ----- captures are shared -----

  /** A capture of the variable that table k still defines is equal to its definition, the mark
      included. */
  predicate CopyOk(c: Chain, f: nat, i: nat, k: nat) {
    Inside(c, f, k) && i < |c[f].free| && c[f].free[i].name in c[k].store
        && IsCopy(c[f].free[i], c[k].store[c[f].free[i].name]) ==>
      c[f].free[i] == c[k].store[c[f].free[i].name]
  }

  ghost predicate Linked(c: Chain) { forall f: nat, i: nat, k: nat :: f < |c| ==> CopyOk(c, f, i, k) }

  /** Two tables of one function never define the same slot. */
  lemma OneDefinition(c: Chain, j: nat, k: nat, name: string)
    requires Slots(c) && j < k < |c| && FuncOf(c, j) == FuncOf(c, k) && Assignable(c, j, name) && Assignable(c, k, name)
    ensures c[j].store[name].index != c[k].store[name].index
  {
    hide FuncOf, LocalsDiffer, GlobalsDiffer, Counts, Base;
    assert SlotOk(c, j, name) && SlotOk(c, k, name);
    BasesGrow(c, j, k);
  }

  lemma LinkedPrefix(c: Chain, n: nat)
    requires Linked(c) && 0 < n <= |c|
    ensures Linked(c[..n])
  {
    forall f: nat, i: nat, k: nat | f < n ensures CopyOk(c[..n], f, i, k) {
      assert CopyOk(c, f, i, k);
      if k < f {
        FuncOfPrefix(c, n, f - 1);
        FuncOfPrefix(c, n, k);
      }
    }
  }

  lemma LinkedMore(outer: Chain, t: Table)
    requires Linked(outer) && t.free == []
    ensures Linked(outer + [t])
  {
    var c := outer + [t];
    assert c[..|outer|] == outer;
    forall f: nat, i: nat, k: nat | f < |c| ensures CopyOk(c, f, i, k) {
      if f < |outer| {
        assert CopyOk(outer, f, i, k);
        if k < f {
          FuncOfPrefix(c, |outer|, f - 1);
          FuncOfPrefix(c, |outer|, k);
        }
      }
    }
  }

  lemma LinkedDefine(c: Chain, name: string, hasValue: bool)
    requires Linked(c)
    ensures Linked(Define(c, name, hasValue).0)
  {
    hide Define;
    var c' := Define(c, name, hasValue).0;
    DefineIs(c, name, hasValue);
    forall f: nat, i: nat, k: nat | f < |c'| ensures CopyOk(c', f, i, k) {
      assert CopyOk(c, f, i, k);
      if k < f {
        FuncSame(c, c', f - 1);
        FuncSame(c, c', k);
      }
    }
  }

  lemma LinkedBuiltin(c: Chain, index: nat, name: string)
    requires Linked(c)
    ensures Linked(DefineBuiltin(c, index, name))
  {
    var c' := DefineBuiltin(c, index, name);
    forall f: nat, i: nat, k: nat | f < |c'| ensures CopyOk(c', f, i, k) {
      assert CopyOk(c, f, i, k);
      if k < f {
        BuiltinPlaces(c, index, name, f - 1);
        BuiltinPlaces(c, index, name, k);
      }
    }
  }

  lemma LinkedAssign(c: Chain, k: nat, name: string)
    requires Inv(c) && Linked(c) && Slots(c) && Assignable(c, k, name)
    ensures Linked(Assign(c, k, name))
  {
    hide Inv, Linked, Slots, Assign;
    var c' := Assign(c, k, name);
    AssignMarks(c, k, name);
    forall f: nat, i: nat, j: nat | f < |c'| && Inside(c', f, j) && i < |c'[f].free| ensures CopyOk(c', f, i, j) {
      InsideMarked(c, c', f, j);
      CopyAssigned(c, k, name, f, i, j);
    }
    LinkedBy(c');
  }

  lemma LinkedBy(c: Chain)
    requires forall f: nat, i: nat, j: nat :: f < |c| && Inside(c, f, j) && i < |c[f].free| ==> CopyOk(c, f, i, j)
    ensures Linked(c)
  {
  }

  lemma InsideMarked(c: Chain, c': Chain, f: nat, k: nat)
    requires AllMarked(c, c')
    ensures Inside(c', f, k) <==> Inside(c, f, k)
  {
    hide FuncOf;
    if k < f < |c| {
      assert Marked(c[f], c'[f]);
      MarkedPlaces(c, c', f - 1);
      MarkedPlaces(c, c', k);
    }
  }

  lemma CopyAssigned(c: Chain, k: nat, name: string, f: nat, i: nat, j: nat)
    requires Inv(c) && Linked(c) && Slots(c) && Assignable(c, k, name) && Inside(c, f, j) && i < |c[f].free|
    ensures CopyOk(Assign(c, k, name), f, i, j)
  {
    hide Slots, FuncOf, Inv;
    assert CopyOk(c, f, i, j);
    EntryThere(c, k, name);
    var c' := Assign(c, k, name);
    var e, s := c[f].free[i], c[k].store[name];
    if e.name in c[j].store && IsCopy(e, c[j].store[e.name]) {
      if j != k && e.name == name && Inside(c, f, k) {
        if j < k { OneDefinition(c, j, k, name); } else { OneDefinition(c, k, j, name); }
      }
    }
    assert c'[f].free[i] == if Inside(c, f, k) && IsCopy(e, s) then e.(hasValue := true) else e;
    assert e.name in c'[j].store <==> e.name in c[j].store;
  }

  /** A local variable that is found is the definition of a table of the current function. */
  lemma {:induction false} FoundWhere(c: Chain, name: string, recur: bool) returns (k: nat)
    requires Resolve(c, name, recur).1.Some? && Resolve(c, name, recur).1.value.scope == Local && Inv(c)
    ensures k < |c| && FuncOf(c, k) == FuncOf(c, |c| - 1) && Assignable(c, k, name)
    ensures c[k].store[name] == Resolve(c, name, recur).1.value
    decreases |c|
  {
    hide Inv;
    var n := |c| - 1;
    if name in c[n].store && Usable(c[n].store[name], recur) {
      k := n;
    } else {
      InvPrefix(c, n);
      k := FoundWhere(c[..n], name, true);
      FuncOfPrefix(c, n, k);
      FuncOfPrefix(c, n, n - 1);
    }
  }

  lemma LinkedResolve(c: Chain, name: string, recur: bool)
    requires Inv(c) && Slots(c) && Linked(c)
    ensures Linked(Resolve(c, name, recur).0)
    decreases |c|
  {
    hide Inv, Slots, Linked;
    var n := |c| - 1;
    var t := c[n];
    if n > 0 && !(name in t.store && Usable(t.store[name], recur)) {
      InvPrefix(c, n);
      SlotsPrefix(c, n);
      LinkedPrefix(c, n);
      LinkedResolve(c[..n], name, true);
      var (outer, found) := Resolve(c[..n], name, true);
      ResolveIsLexical(c[..n], name, true);
      LinkedCaptured(c, name, recur);
    }
  }

  lemma SlotsPrefix(c: Chain, n: nat)
    requires Slots(c) && 0 < n <= |c|
    ensures Slots(c[..n])
  {
    hide Slots;
    SubchainSlots(c, c[..n]);
  }

  lemma LinkedCaptured(c: Chain, name: string, recur: bool)
    requires Inv(c) && Slots(c) && Linked(c) && |c| > 1
    requires var (outer, found) := Resolve(c[..|c| - 1], name, true); Linked(outer) && Grows(c[..|c| - 1], outer)
    requires !(name in c[|c| - 1].store && Usable(c[|c| - 1].store[name], recur))
    ensures Linked(Resolve(c, name, recur).0)
  {
    hide Inv, Slots, Linked;
    var n := |c| - 1;
    var (outer, found) := Resolve(c[..n], name, true);
    var c' := Resolve(c, name, recur).0;
    assert c'[..n] == outer;
    ResolveGrows(c, name, recur);
    forall f: nat, i: nat, k: nat | f < |c'| && Inside(c', f, k) && i < |c'[f].free| ensures CopyOk(c', f, i, k) {
      if f < n {
        CopyBefore(c', outer, f, i, k);
      } else if i < |c[n].free| {
        CopyStays(c, c', n, i, k);
      } else {
        InvPrefix(c, n);
        NewCopy(c, name, recur, k);
      }
    }
    LinkedBy(c');
  }

  lemma ResolveGrows(c: Chain, name: string, recur: bool)
    requires Inv(c)
    ensures Grows(c, Resolve(c, name, recur).0)
  {
    hide Inv;
    ResolveIsLexical(c, name, recur);
  }

  lemma CopyBefore(c': Chain, outer: Chain, f: nat, i: nat, k: nat)
    requires |outer| < |c'| && c'[..|outer|] == outer && Linked(outer) && f < |outer|
    ensures CopyOk(c', f, i, k)
  {
    assert CopyOk(outer, f, i, k);
    assert c'[f] == outer[f];
    if k < f {
      assert c'[k] == outer[k];
      FuncOfPrefix(c', |outer|, f - 1);
      FuncOfPrefix(c', |outer|, k);
    }
  }

  /** Captures only add captured variables to the other tables. */
  lemma CopyStays(c: Chain, c': Chain, f: nat, i: nat, k: nat)
    requires Grows(c, c') && Linked(c) && f < |c| && i < |c[f].free|
    ensures CopyOk(c', f, i, k)
  {
    assert CopyOk(c, f, i, k);
    if k < f {
      assert TableGrows(c[f], c'[f]) && TableGrows(c[k], c'[k]);
      GrowsFuncOf(c, c', f - 1);
      GrowsFuncOf(c, c', k);
      assert c'[f].free[..|c[f].free|][i] == c[f].free[i];
    }
  }

  /** The new capture is the definition itself. */
  lemma NewCopy(c: Chain, name: string, recur: bool, k: nat)
    requires Inv(c) && Slots(c) && |c| > 1 && Inv(c[..|c| - 1])
    requires !(name in c[|c| - 1].store && Usable(c[|c| - 1].store[name], recur))
    requires Grows(c, Resolve(c, name, recur).0) && Inside(Resolve(c, name, recur).0, |c| - 1, k)
    ensures CopyOk(Resolve(c, name, recur).0, |c| - 1, |c[|c| - 1].free|, k)
  {
    hide Inv, Slots, FuncOf, TableGrows, LocalsDiffer, GlobalsDiffer;
    var n := |c| - 1;
    var c' := Resolve(c, name, recur).0;
    var found := Resolve(c[..n], name, true).1;
    NewFree(c, name, recur);
    assert TableGrows(c[n], c'[n]) && TableGrows(c[k], c'[k]);
    GrowsFuncOf(c, c', n - 1);
    GrowsFuncOf(c, c', k);
    if found.Some? && found.value.scope == Local && |c[n].free| < |c'[n].free|
       && found.value.name in c'[k].store && IsCopy(found.value, c'[k].store[found.value.name]) {
      var j := FoundWhere(c[..n], name, true);
      FuncOfPrefix(c, n, j);
      FuncOfPrefix(c, n, n - 1);
      EntryThere(c, j, name);
      OldLocal(c[k], c'[k], name);
      assert c[j].store[name] == found.value && Assignable(c, k, name);
      if j < k { OneDefinition(c, j, k, name); }
      if k < j { OneDefinition(c, k, j, name); }
    }
  }

  lemma OldLocal(t: Table, t': Table, x: string)
    requires TableGrows(t, t') && x in t'.store && t'.store[x].scope == Local
    ensures x in t.store && t.store[x] == t'.store[x]
  {
  }

  lemma NewFree(c: Chain, name: string, recur: bool)
    requires |c| > 1 && !(name in c[|c| - 1].store && Usable(c[|c| - 1].store[name], recur))
    ensures var n, c' := |c| - 1, Resolve(c, name, recur).0;
            && c'[n].block == c[n].block
            && (|c'[n].free| == |c[n].free|
                || (Resolve(c[..n], name, true).1.Some?
                    && c'[n].free == c[n].free + [Resolve(c[..n], name, true).1.value]))
  {
  }

  // ----- whole compilations -----

  /** What the compiler does with the tables. Parameters are defined in the table of their function
      and are assigned at once; everything else inside functions is defined in blocks, and assigned
      when its initial value has been compiled or when a closure captures it before. */
  datatype Op =
    | ForkOp(block: bool)
    | LeaveOp
    | DefineOp(name: string)
    | ParamOp(name: string)
    | AssignOp(table: nat, name: string)
    | BuiltinOp(index: nat, name: string)
    | ResolveOp(name: string)

  predicate Allowed(c: Chain, op: Op) {
    match op
    case LeaveOp => |c| > 1
    case DefineOp(_) => FuncOf(c, |c| - 1) == 0 || c[|c| - 1].block
    case AssignOp(k, name) => Assignable(c, k, name)
    case _ => true
  }

  function Apply(c: Chain, op: Op): Chain
    requires Allowed(c, op)
  {
    match op
    case ForkOp(block) => Fork(c, block)
    case LeaveOp => c[..|c| - 1]
    case DefineOp(name) => Define(c, name, false).0
    case ParamOp(name) => Define(c, name, true).0
    case AssignOp(k, name) => Assign(c, k, name)
    case BuiltinOp(index, name) => DefineBuiltin(c, index, name)
    case ResolveOp(name) => Resolve(c, name, false).0
  }

  function Run(c: Chain, ops: seq<Op>): Option<Chain>
    decreases |ops|
  {
    if ops == [] then Some(c) else if Allowed(c, ops[0]) then Run(Apply(c, ops[0]), ops[1..]) else None
  }

  const Root: Chain := [Table(false, map[], 0, 0, [])]

  ghost predicate Good(c: Chain) { Inv(c) && Slots(c) && Linked(c) }

  lemma DefineKeeps(c: Chain, name: string, hasValue: bool)
    requires Good(c) && (FuncOf(c, |c| - 1) > 0 && !c[|c| - 1].block ==> hasValue)
    ensures Good(Define(c, name, hasValue).0)
  {
    hide Inv, Slots, Linked, Define;
    DefineKeepsInv(c, name, hasValue);
    if FuncOf(c, |c| - 1) == 0 { DefineGlobalKeeps(c, name, hasValue); } else { DefineLocalKeeps(c, name, hasValue); }
    LinkedDefine(c, name, hasValue);
  }

  lemma OpKeeps(c: Chain, op: Op)
    requires Good(c) && Allowed(c, op)
    ensures Good(Apply(c, op))
  {
    hide Inv, Slots, Linked, Define, Resolve, Assign, DefineBuiltin;
    match op
    case ForkOp(block) =>
      ForkKeeps(c, block);
      LinkedMore(c, Table(block, map[], 0, 0, []));
    case LeaveOp =>
      LeaveKeeps(c);
      LinkedPrefix(c, |c| - 1);
    case ResolveOp(name) =>
      ResolveKeeps(c, name, false);
      LinkedResolve(c, name, false);
    case DefineOp(name) => DefineKeeps(c, name, false);
    case ParamOp(name) => DefineKeeps(c, name, true);
    case AssignOp(k, name) =>
      AssignMarks(c, k, name);
      MarkedInv(c, Assign(c, k, name));
      MarkedSlots(c, Assign(c, k, name));
      LinkedAssign(c, k, name);
    case BuiltinOp(index, name) =>
      BuiltinInv(c, index, name);
      BuiltinSlots(c, index, name);
      LinkedBuiltin(c, index, name);
  }

  lemma {:induction false} RunKeeps(c: Chain, ops: seq<Op>)
    requires Good(c) && Run(c, ops).Some?
    ensures Good(Run(c, ops).value)
    decreases |ops|
  {
    hide Good, Apply, Allowed;
    if ops != [] {
      OpKeeps(c, ops[0]);
      RunKeeps(Apply(c, ops[0]), ops[1..]);
    }
  }

  /** A function's table begins a function of its own, a block's belongs to the function around it; both
      start empty and leave the tables around them as they are. */
  lemma Opens(c: Chain, block: bool, name: string)
    requires Allowed(c, ForkOp(block))
    ensures var c' := Apply(c, ForkOp(block));
            && |c'| == |c| + 1 && c'[..|c|] == c
            && FuncOf(c', |c|) == (if block then FuncOf(c, |c| - 1) else |c|)
            && name !in c'[|c|].store && c'[|c|].free == []
            && NextIndex(c') == (if block then NextIndex(c) else 0)
  {
    var c' := Apply(c, ForkOp(block));
    assert c'[..|c|] == c;
    FuncOfPrefix(c', |c|, |c| - 1);
  }

  lemma RootOk()
    ensures Good(Root)
  {
  }

  /** At any point of any nesting of functions and blocks: a name resolves exactly when lexical
      scoping finds a definition, and to that one, through all the functions in between. */
  lemma ScopingIsLexical(ops: seq<Op>, name: string)
    requires Run(Root, ops).Some?
    ensures var c := Run(Root, ops).value;
            var (c', r) := Resolve(c, name, false);
            && (r.Some? <==> Binding(c, name, false).Some?)
            && (r.Some? ==> r.value.name == name && Target(c', r.value) == Binding(c, name, false))
  {
    hide Inv, Slots, Linked, Run, Resolve, Binding, Target;
    RootOk();
    RunKeeps(Root, ops);
    ResolveIsLexical(Run(Root, ops).value, name, false);
  }

  /** Two names that are visible at the same time never share a slot, and the slot of a local
      variable is within the size its function announces. */
  lemma VisibleSlotsDiffer(ops: seq<Op>, x: string, y: string)
    requires Run(Root, ops).Some? && x != y
    ensures var c := Run(Root, ops).value;
            var a, b := Binding(c, x, false), Binding(c, y, false);
            && (a.Some? && b.Some? && !a.value.BuiltinSlot? ==> a != b)
            && (a.Some? && a.value.LocalSlot? ==> 0 < a.value.f < |c| && a.value.i < c[a.value.f].maxDefinition)
  {
    hide Inv, Slots, Linked, Run, Binding;
    RootOk();
    RunKeeps(Root, ops);
    var c := Run(Root, ops).value;
    var a, b := Binding(c, x, false), Binding(c, y, false);
    if a.Some? && b.Some? && !a.value.BuiltinSlot? { VisibleAreDistinct(c, x, y, false, false); }
    if a.Some? && a.value.LocalSlot? { SlotInFrame(c, x, false); }
  }

  lemma SlotInFrame(c: Chain, x: string, recur: bool)
    requires Inv(c) && Slots(c) && Binding(c, x, recur).Some? && Binding(c, x, recur).value.LocalSlot?
    ensures var s := Binding(c, x, recur).value; 0 < s.f < |c| && s.i < c[s.f].maxDefinition
  {
    hide Inv, LocalsDiffer, GlobalsDiffer, Binding, Base;
    var k := BindingFrom(c, x, recur);
    EntryThere(c, k, x);
    assert SlotOk(c, k, x) && CountOk(c, k);
  }

  /** A closure's captured variable is the definition itself: as long as the variable is defined,
      what has been recorded about it is the same through the function's free symbols. */
  lemma CapturesAreShared(ops: seq<Op>, f: nat, i: nat, k: nat)
    requires Run(Root, ops).Some?
    ensures f < |Run(Root, ops).value| ==> CopyOk(Run(Root, ops).value, f, i, k)
  {
    hide Inv, Slots, Run, CopyOk;
    RootOk();
    RunKeeps(Root, ops);
  }

  // ----- builtin functions over runs -----

  /** The operation defines a variable of this name. */
  predicate Defines(op: Op, name: string) { (op.DefineOp? || op.ParamOp?) && op.name == name }

  predicate DefinesBuiltin(op: Op, name: string) { op.BuiltinOp? && op.name == name }

  /** The root has the name as builtin function number index, or not at all. */
  predicate RootHas(c: Chain, name: string, index: Option<nat>) {
    if index.None? then name !in c[0].store
    else name in c[0].store && c[0].store[name].(hasValue := false) == Symbol(name, Builtin, index.value, false)
  }

  /** No table but the root has the name. */
  ghost predicate OnlyRoot(c: Chain, name: string) { forall k: nat :: 0 < k < |c| ==> name !in c[k].store }

  lemma {:induction false} ResolveTouches(c: Chain, x: string, recur: bool, name: string, k: nat)
    requires k < |c| && (x != name || k == 0)
    ensures var c' := Resolve(c, x, recur).0;
            && (name in c'[k].store <==> name in c[k].store)
            && (name in c[k].store ==> c'[k].store[name] == c[k].store[name])
    decreases |c|
  {
    var n := |c| - 1;
    if n > 0 && k < n { ResolveTouches(c[..n], x, true, name, k); }
  }

  /** A name that only the root has is found there, from any table. */
  lemma {:induction false} FoundAtRoot(c: Chain, name: string, recur: bool, index: Option<nat>)
    requires RootHas(c, name, index) && OnlyRoot(c, name)
    ensures Resolve(c, name, recur) == (c, if index.None? then None else Some(c[0].store[name]))
    decreases |c|
  {
    var n := |c| - 1;
    if n > 0 {
      forall k: nat | 0 < k < n ensures name !in c[..n][k].store { assert c[..n][k] == c[k]; }
      assert c[..n][0] == c[0];
      FoundAtRoot(c[..n], name, true, index);
      assert c[..n] + [c[n]] == c;
    }
  }

  /** What one operation that does not define the name leaves of it. */
  lemma NameStays(c: Chain, op: Op, name: string, k: nat)
    requires Allowed(c, op) && !Defines(op, name) && !DefinesBuiltin(op, name)
    requires k < |c| && k < |Apply(c, op)| && !(op.ResolveOp? && op.name == name && k > 0)
    ensures var c' := Apply(c, op);
            && (name in c'[k].store <==> name in c[k].store)
            && (name in c[k].store ==> c'[k].store[name].(hasValue := false) == c[k].store[name].(hasValue := false))
  {
    hide Resolve, Define, Assign;
    match op
    case DefineOp(x) =>
      DefineIs(c, x, false);
    case ParamOp(x) =>
      DefineIs(c, x, true);
    case ResolveOp(x) =>
      ResolveTouches(c, x, false, name, k);
    case AssignOp(j, x) =>
      AssignMarks(c, j, x);
      assert Marked(c[k], Assign(c, j, x)[k]);
    case _ =>
  }

  /** After one operation. */
  function IndexAfter(op: Op, name: string, before: Option<nat>): Option<nat> {
    if DefinesBuiltin(op, name) then Some(op.index) else before
  }

  lemma RootStep(c: Chain, op: Op, name: string, index: Option<nat>)
    requires Allowed(c, op) && !Defines(op, name) && RootHas(c, name, index)
    ensures RootHas(Apply(c, op), name, IndexAfter(op, name, index))
  {
    hide Resolve, Define, Assign, FuncOf;
    if !DefinesBuiltin(op, name) { NameStays(c, op, name, 0); }
  }

  lemma ApplySize(c: Chain, op: Op)
    requires Allowed(c, op)
    ensures |Apply(c, op)| <= if op.ForkOp? then |c| + 1 else |c|
  {
    hide Define, Resolve, Assign;
    match op
    case DefineOp(x) => DefineIs(c, x, false);
    case ParamOp(x) => DefineIs(c, x, true);
    case AssignOp(j, x) => AssignMarks(c, j, x);
    case _ =>
  }

  lemma OnlyRootStep(c: Chain, op: Op, name: string, index: Option<nat>)
    requires Allowed(c, op) && !Defines(op, name) && RootHas(c, name, index) && OnlyRoot(c, name)
    ensures OnlyRoot(Apply(c, op), name)
  {
    hide Resolve, Define, Assign, FuncOf;
    if op.ResolveOp? && op.name == name {
      FoundAtRoot(c, name, false, index);
    } else {
      ApplySize(c, op);
      forall k: nat | 0 < k < |Apply(c, op)| ensures name !in Apply(c, op)[k].store {
        if k < |c| && !DefinesBuiltin(op, name) { NameStays(c, op, name, k); }
      }
    }
  }

  /** The number given with the last builtin definition of the name. */
  function LastIndex(ops: seq<Op>, name: string, before: Option<nat>): Option<nat>
    decreases |ops|
  {
    if ops == [] then before else LastIndex(ops[1..], name, IndexAfter(ops[0], name, before))
  }

  lemma {:induction false} RootRuns(c: Chain, ops: seq<Op>, name: string, index: Option<nat>)
    requires Run(c, ops).Some? && RootHas(c, name, index) && forall op <- ops :: !Defines(op, name)
    ensures RootHas(Run(c, ops).value, name, LastIndex(ops, name, index))
    ensures OnlyRoot(c, name) ==> OnlyRoot(Run(c, ops).value, name)
    decreases |ops|
  {
    hide Apply, Allowed, RootHas, OnlyRoot, Defines, IndexAfter;
    if ops != [] {
      RootStep(c, ops[0], name, index);
      if OnlyRoot(c, name) { OnlyRootStep(c, ops[0], name, index); }
      RootRuns(Apply(c, ops[0]), ops[1..], name, IndexAfter(ops[0], name, index));
    }
  }

  /** A name that no operation defines as a variable resolves, from everywhere, to the builtin function
      with the number it was last given, and not at all if it was given none. */
  lemma BuiltinsResolve(ops: seq<Op>, name: string, recur: bool)
    requires Run(Root, ops).Some? && forall op <- ops :: !Defines(op, name)
    ensures var c, i := Run(Root, ops).value, LastIndex(ops, name, None);
            && Resolve(c, name, recur).0 == c
            && match Resolve(c, name, recur).1
               case None => i == None
               case Some(s) => s.name == name && s.scope == Builtin && i == Some(s.index)
  {
    hide Run, Resolve, LastIndex;
    RootRuns(Root, ops, name, None);
    FoundAtRoot(Run(Root, ops).value, name, recur, LastIndex(ops, name, None));
  }

  lemma {:induction false} RunBoth(c: Chain, a: seq<Op>, b: seq<Op>)
    requires Run(c, a + b).Some?
    ensures Run(c, a).Some? && Run(c, a + b) == Run(Run(c, a).value, b)
    decreases |a|
  {
    hide Apply, Allowed;
    if a == [] {
      assert a + b == b;
    } else {
      assert (a + b)[0] == a[0] && (a + b)[1..] == a[1..] + b;
      RunBoth(Apply(c, a[0]), a[1..], b);
    }
  }

  /** From the builtin definition on, and as long as the name is not defined again, a table that no table
      between the root and it hides the name from resolves it to the builtin function of that number,
      whatever was defined before. */
  lemma BuiltinStays(before: seq<Op>, index: nat, name: string, later: seq<Op>, recur: bool)
    requires Run(Root, before + ([BuiltinOp(index, name)] + later)).Some?
    requires forall op <- later :: !Defines(op, name) && !DefinesBuiltin(op, name)
    requires OnlyRoot(Run(Root, before + ([BuiltinOp(index, name)] + later)).value, name)
    ensures var (c', r) := Resolve(Run(Root, before + ([BuiltinOp(index, name)] + later)).value, name, recur);
            r.Some? && r.value.name == name && r.value.scope == Builtin && r.value.index == index
  {
    hide Resolve;
    var op := BuiltinOp(index, name);
    RunBoth(Root, before, [op] + later);
    var c := Run(Root, before).value;
    assert ([op] + later)[1..] == later;
    assert RootHas(Apply(c, op), name, Some(index));
    hide Run, Apply;
    RootRuns(Apply(c, op), later, name, Some(index));
    NoLaterIndex(later, name, Some(index));
    FoundAtRoot(Run(Root, before + ([op] + later)).value, name, recur, Some(index));
  }

  lemma {:induction false} NoLaterIndex(ops: seq<Op>, name: string, index: Option<nat>)
    requires forall op <- ops :: !DefinesBuiltin(op, name)
    ensures LastIndex(ops, name, index) == index
    decreases |ops|
  {
    if ops != [] { NoLaterIndex(ops[1..], name, index); }
  }

  /** The name that an operation defines as a global variable. */
  function GlobalDefined(c: Chain, op: Op): Option<string> {
    if FuncOf(c, |c| - 1) != 0 then None
    else
      match op
      case DefineOp(name) => Some(name)
      case ParamOp(name) => Some(name)
      case _ => None
  }

  /** The indices that the global definitions of a run are given, in order. */
  function GlobalIndices(c: Chain, ops: seq<Op>): seq<nat>
    decreases |ops|
  {
    if ops == [] || !Allowed(c, ops[0]) then []
    else
      var rest := GlobalIndices(Apply(c, ops[0]), ops[1..]);
      match GlobalDefined(c, ops[0])
      case None => rest
      case Some(name) => [Define(c, name, ops[0].ParamOp?).1.index] + rest
  }

  lemma RootCounts(c: Chain, op: Op)
    requires Good(c) && Allowed(c, op)
    ensures var d, n, n' := GlobalDefined(c, op), c[0].numDefinition, Apply(c, op)[0].numDefinition;
            if d.Some? then Define(c, d.value, op.ParamOp?).1.index == n && n' == n + 1 else n' == n
  {
    hide Inv, Resolve, Define, InRange, LocalsDiffer, GlobalsDiffer, Linked, Assign, FuncOf;
    match op
    case ResolveOp(name) =>
      ResolveIsSubchain(c, name, false);
      assert SubtableAt(c, Resolve(c, name, false).0, 0);
    case DefineOp(name) =>
      DefineIs(c, name, false);
      if FuncOf(c, |c| - 1) == 0 { GlobalIndex(c); } else { NotRoot(c); }
    case ParamOp(name) =>
      DefineIs(c, name, true);
      if FuncOf(c, |c| - 1) == 0 { GlobalIndex(c); } else { NotRoot(c); }
    case AssignOp(k, name) =>
      AssignMarks(c, k, name);
      assert Marked(c[0], Assign(c, k, name)[0]);
    case _ =>
  }

  lemma NotRoot(c: Chain)
    requires c != [] && FuncOf(c, |c| - 1) != 0
    ensures |c| > 1
  {
  }

  lemma {:induction false} GlobalsCount(c: Chain, ops: seq<Op>)
    requires Good(c) && Run(c, ops).Some?
    ensures var g, n := GlobalIndices(c, ops), c[0].numDefinition;
            (forall i :: 0 <= i < |g| ==> g[i] == n + i) && Run(c, ops).value[0].numDefinition == n + |g|
    decreases |ops|
  {
    hide Good, Apply, Allowed, Define, GlobalDefined;
    if ops != [] {
      RootCounts(c, ops[0]);
      OpKeeps(c, ops[0]);
      GlobalsCount(Apply(c, ops[0]), ops[1..]);
    }
  }

  /** Whatever is defined, opened, left and resolved in between, the global definitions of a compilation
      are given the indices 0, 1, 2 and so on, none of them twice. */
  lemma GlobalsAreFresh(ops: seq<Op>)
    requires Run(Root, ops).Some?
    ensures var g := GlobalIndices(Root, ops);
            (forall i :: 0 <= i < |g| ==> g[i] == i) && Run(Root, ops).value[0].numDefinition == |g|
  {
    hide Run, GlobalIndices;
    RootOk();
    GlobalsCount(Root, ops);
  }

  /** A variable that is being given its first value is not visible in its own initial value, but it is
      in functions written there, which capture it; once it is assigned both see it. */
  lemma OwnInitialValue(c: Chain, name: string)
    requires Good(c) && FuncOf(c, |c| - 1) > 0 && c[|c| - 1].block
    ensures var c1 := Define(c, name, false).0;
            var n := |c1| - 1;
            var slot := LocalSlot(FuncOf(c1, n), Define(c, name, false).1.index);
            && Binding(c1, name, false) == Binding(c1[..n], name, true)
            && Binding(Fork(c1, false), name, false) == Some(slot)
            && Assignable(c1, n, name) && Binding(Assign(c1, n, name), name, false) == Some(slot)
  {
    hide Define, Inv, Slots, Linked, Assign, Binding, FuncOf;
    var (c1, s) := Define(c, name, false);
    DefineIs(c, name, false);
    var n := |c1| - 1;
    FuncSame(c, c1, n);
    BoundInside(c1, name);
    BoundOnceAssigned(c1, name);
  }

  lemma BoundInside(c: Chain, name: string)
    requires Assignable(c, |c| - 1, name) && !c[|c| - 1].store[name].hasValue && |c| > 1
    ensures var slot := LocalSlot(FuncOf(c, |c| - 1), c[|c| - 1].store[name].index);
            && Binding(c, name, false) == Binding(c[..|c| - 1], name, true)
            && Binding(Fork(c, false), name, false) == Some(slot)
  {
    hide FuncOf;
    assert Fork(c, false)[..|c|] == c;
  }

  lemma BoundOnceAssigned(c: Chain, name: string)
    requires Assignable(c, |c| - 1, name)
    ensures var n := |c| - 1;
            Binding(Assign(c, n, name), name, false) == Some(LocalSlot(FuncOf(c, n), c[n].store[name].index))
  {
    hide FuncOf, Inside;
    AssignMarks(c, |c| - 1, name);
    MarkedPlaces(c, Assign(c, |c| - 1, name), |c| - 1);
  }

  // ----- where the condition on parameters comes from -----

  /** In a function's own table, a local that has not been assigned and shadows a captured one is
      replaced by the captured one when its name is looked up. */
  lemma UnassignedIsLost()
    ensures var f := Table(false, map["x" := Symbol("x", Local, 0, true)], 1, 1, []);
            var g := Table(false, map["x" := Symbol("x", Local, 0, false)], 1, 1, []);
            var c: Chain := Root + [f, g];
            && Binding(c, "x", true) == Some(LocalSlot(2, 0))
            && Resolve(c, "x", false).0[2].store["x"].scope == Free
            && Target(Resolve(c, "x", false).0, Resolve(c, "x", false).0[2].store["x"]) == Some(LocalSlot(1, 0))
  {
    var f := Table(false, map["x" := Symbol("x", Local, 0, true)], 1, 1, []);
    var g := Table(false, map["x" := Symbol("x", Local, 0, false)], 1, 1, []);
    var c: Chain := Root + [f, g];
    assert c[..2] == Root + [f];
    assert Resolve(Root + [f], "x", true) == (Root + [f], Some(f.store["x"]));
    var s := Symbol("x", Free, 0, false);
    var g' := g.(free := [f.store["x"]], store := g.store["x" := s]);
    var c' := Root + [f] + [g'];
    assert c[2] == g && !Usable(g.store["x"], false) && g.free + [f.store["x"]] == [f.store["x"]];
    assert Resolve(c[..2], "x", true) == (Root + [f], Some(f.store["x"]));
    assert Resolve(c, "x", false) == (c', Some(s));
    assert c'[..2] == Root + [f] && c'[2] == g';
    assert FuncOf(c', 2) == 2 && FuncOf(Root + [f], 1) == 1 && FuncOf(c, 2) == 2;
    assert Target(c', s) == Target(Root + [f], f.store["x"]) == Some(LocalSlot(1, 0));
  }

  /** The function written directly inside the one of table k is the first one behind it. */
  lemma {:induction false} OnlyInside(c: Chain, k: nat, j: nat)
    requires k < j <= |c| && (forall i :: k < i < j ==> c[i].block) && (j < |c| ==> !c[j].block)
    ensures forall f: nat :: Inside(c, f, k) <==> f == j && j < |c|
  {
    BlocksStay(c, k, j - 1);
    forall f: nat | Inside(c, f, k) ensures f == j && j < |c| {
      if f > j { FuncBehind(c, j, f - 1); FuncAtMost(c, k); }
    }
  }

  lemma {:induction false} BlocksStay(c: Chain, k: nat, j: nat)
    requires k <= j < |c| && forall i :: k < i <= j ==> c[i].block
    ensures FuncOf(c, j) == FuncOf(c, k)
  {
    if k < j { BlocksStay(c, k, j - 1); }
  }

  lemma {:induction false} FuncBehind(c: Chain, j: nat, k: nat)
    requires j <= k < |c| && !c[j].block
    ensures FuncOf(c, k) >= j
  {
    if j < k { FuncBehind(c, j, k - 1); }
  }

  lemma FuncAtMost(c: Chain, k: nat)
    requires k < |c|
    ensures FuncOf(c, k) <= k
  {
  }

  // ----- the tables as they change -----

  class SymbolTables {
    var tables: Chain

    constructor ()
      ensures tables == Root
    {
      tables := Root;
    }

    method ForkTable(block: bool)
      modifies this
      ensures tables == Fork(old(tables), block)
    {
      tables := tables + [Table(block, map[], 0, 0, [])];
    }

    /** Parent(false) becomes current. */
    method Leave()
      requires |tables| > 1
      modifies this
      ensures tables == old(tables)[..|old(tables)| - 1]
    {
      tables := tables[..|tables| - 1];
    }

    method NextIndexOf() returns (index: nat)
      ensures index == NextIndex(tables)
    {
      var k: nat := |tables| - 1;
      index := tables[k].numDefinition;
      assert tables[..k + 1] == tables;
      while tables[k].block && k > 0
        invariant k < |tables|
        invariant NextIndex(tables) == index - tables[k].numDefinition + NextIndex(tables[..k + 1])
        decreases k
      {
        assert tables[..k + 1][..k] == tables[..k];
        k := k - 1;
        index := index + tables[k].numDefinition;
      }
    }

    method UpdateMaxDefs(numDefs: nat)
      modifies this
      ensures tables == RaiseMax(old(tables), |old(tables)| - 1, numDefs)
    {
      var k: nat := |tables| - 1;
      while true
        invariant k < |tables| == |old(tables)|
        invariant RaiseMax(tables, k, numDefs) == RaiseMax(old(tables), |old(tables)| - 1, numDefs)
        decreases k
      {
        var t := tables[k];
        assert tables[k := t] == tables;
        if numDefs > t.maxDefinition { tables := tables[k := t.(maxDefinition := numDefs)]; }
        if !t.block || k == 0 { return; }
        k := k - 1;
      }
    }

    method DefineSymbol(name: string, hasValue: bool) returns (symbol: Symbol)
      modifies this
      ensures (tables, symbol) == Define(old(tables), name, hasValue)
    {
      hide NextIndex, RaiseMax;
      var n := |tables| - 1;
      var index := NextIndexOf();
      var f: nat := n;
      while tables[f].block && f > 0
        invariant f < |tables| && FuncOf(tables, f) == FuncOf(tables, n)
        decreases f
      {
        f := f - 1;
      }
      symbol := Symbol(name, if f == 0 then Global else Local, index, hasValue);
      var counter := if f == 0 then 0 else n;
      tables := tables[counter := tables[counter].(numDefinition := tables[counter].numDefinition + 1)];
      tables := tables[n := tables[n].(store := tables[n].store[name := symbol])];
      UpdateMaxDefs(index + 1);
    }

    /** Resolve as seen from table k. */
    method ResolveAt(k: nat, name: string, recur: bool) returns (symbol: Option<Symbol>)
      requires k < |tables|
      modifies this
      ensures |tables| == |old(tables)| && tables[k + 1..] == old(tables)[k + 1..]
      ensures (tables[..k + 1], symbol) == Resolve(old(tables)[..k + 1], name, recur)
      decreases k
    {
      var t := tables[k];
      assert tables[..k + 1][k] == t && tables[..k + 1][..k] == tables[..k];
      if name in t.store && Usable(t.store[name], recur) { return Some(t.store[name]); }
      if k == 0 { return None; }
      symbol := ResolveAt(k - 1, name, true);
      assert tables[k] == tables[k..][0] == t;
      if symbol.Some? && !t.block && symbol.value.scope != Global && symbol.value.scope != Builtin {
        var s := Symbol(name, Free, |t.free|, false);
        ghost var outer := tables[..k];
        tables := tables[k := t.(free := t.free + [symbol.value], store := t.store[name := s])];
        assert tables[..k + 1] == outer + [tables[k]];
        symbol := Some(s);
      } else {
        assert tables[..k + 1] == tables[..k] + [t];
      }
    }

    /** DefineBuiltin: the root is the first table. */
    method DefineBuiltinSymbol(index: nat, name: string)
      modifies this
      ensures tables == DefineBuiltin(old(tables), index, name)
    {
      tables := tables[0 := tables[0].(store := tables[0].store[name := Symbol(name, Builtin, index, false)])];
    }

    /** Sets LocalAssigned. The symbols that inner functions have captured are the same one. */
    method MarkAssigned(k: nat, name: string)
      requires Assignable(tables, k, name)
      modifies this
      ensures tables == Assign(old(tables), k, name)
    {
      ghost var before := tables;
      var s := tables[k].store[name];
      tables := tables[k := tables[k].(store := tables[k].store[name := s.(hasValue := true)])];
      var j := k + 1;
      while j < |tables| && tables[j].block
        invariant k < j <= |tables| == |before| && tables[..k] == before[..k] && tables[k + 1..] == before[k + 1..]
        invariant tables[k] == before[k].(store := before[k].store[name := s.(hasValue := true)])
        invariant FuncOf(before, j - 1) == FuncOf(before, k)
        invariant forall i :: k < i < j ==> before[i].block
      {
        assert tables[j] == tables[k + 1..][j - k - 1] == before[j];
        j := j + 1;
      }
      if j < |tables| {
        assert tables[j] == tables[k + 1..][j - k - 1] == before[j];
        tables := tables[j := tables[j].(free := MarkCopies(tables[j].free, s))];
      }
      OnlyInside(before, k, j);
      forall i | 0 <= i < |before| ensures tables[i] == Assign(before, k, name)[i] {
        if i < k { assert before[..k][i] == before[i]; }
        if i > k { assert before[k + 1..][i - k - 1] == before[i]; }
      }
      assert tables == Assign(before, k, name);
    }

    method ResolveName(name: string) returns (symbol: Option<Symbol>)
      modifies this
      ensures (tables, symbol) == Resolve(old(tables), name, false)
    {
      assert tables[..|tables|] == tables;
      symbol := ResolveAt(|tables| - 1, name, false);
      assert tables[..|tables|] == tables;
    }
  }
}

/** Scopes, slots and captured variables: vm/symbol_table.go. The tables from the root to the current
    one are a sequence; a table's parent is the one before it. */
module Symbols {
  import opened Wrappers

  datatype Scope = Global | Local | Builtin | Free

  datatype Symbol = Symbol(name: string, scope: Scope, index: nat, hasValue: bool)

  /** A table that is not a block belongs to a function (the root to the main program). */
  datatype Table = Table(block: bool, store: map<string, Symbol>, numDefinition: nat, maxDefinition: nat,
                         free: seq<Symbol>)

  type Chain = t: seq<Table> | |t| > 0 witness [Table(false, map[], 0, 0, [])]

  // ----- lexical scoping -----

  /** The table of the function that table k is in. */
  function FuncOf(c: seq<Table>, k: nat): (f: nat)
    requires k < |c|
    ensures f <= k
  {
    if c[k].block && k > 0 then FuncOf(c, k - 1) else k
  }

  /** What a name stands for at run time: a global, a builtin, or a local slot of the function whose
      table is the f-th. */
  datatype Slot = GlobalSlot(i: nat) | BuiltinSlot(i: nat) | LocalSlot(f: nat, i: nat)

  /** A definition can be used; one in the current table only when it has been assigned. */
  predicate Usable(s: Symbol, recur: bool) { s.scope != Local || s.hasValue || recur }

  function SlotOf(c: seq<Table>, k: nat, s: Symbol): Slot
    requires k < |c|
  {
    match s.scope
    case Global => GlobalSlot(s.index)
    case Builtin => BuiltinSlot(s.index)
    case _ => LocalSlot(FuncOf(c, k), s.index)
  }

  /** The innermost definition of the name. */
  function Binding(c: Chain, name: string, recur: bool): Option<Slot>
    decreases |c|
  {
    var n := |c| - 1;
    if name in c[n].store && c[n].store[name].scope != Free && Usable(c[n].store[name], recur) then
      Some(SlotOf(c, n, c[n].store[name]))
    else if n == 0 then None
    else Binding(c[..n], name, true)
  }

  // ----- what a symbol denotes -----

  /** Following the index of a free symbol through the free symbols of the enclosing functions. */
  function Target(c: Chain, s: Symbol): Option<Slot>
    decreases |c|
  {
    var f := FuncOf(c, |c| - 1);
    if s.scope != Free then Some(SlotOf(c, |c| - 1, s))
    else if f == 0 || s.index >= |c[f].free| then None
    else Target(c[..f], c[f].free[s.index])
  }

  // ----- the operations -----

  /** Resolve, and defineFree where the symbol comes from an enclosing function. */
  function Resolve(c: Chain, name: string, recur: bool): (r: (Chain, Option<Symbol>))
    ensures |r.0| == |c|
    decreases |c|
  {
    var n := |c| - 1;
    var t := c[n];
    if name in t.store && Usable(t.store[name], recur) then (c, Some(t.store[name]))
    else if n == 0 then (c, None)
    else
      var (outer, found) := Resolve(c[..n], name, true);
      if found.Some? && !t.block && found.value.scope != Global && found.value.scope != Builtin then
        var s := Symbol(name, Free, |t.free|, false);
        (outer + [t.(free := t.free + [found.value], store := t.store[name := s])], Some(s))
      else (outer + [t], found)
  }

  // ----- what holds between operations -----

  /** Cached free symbols lead to the binding of their name outside the function; parameters, the
      only definitions in function tables, are assigned; locals are inside functions. */
  ghost predicate TableOk(c: Chain, k: nat)
    requires k < |c|
  {
    (forall name <- c[k].store :: EntryOk(c, k, name)) && CapturesOk(c[k])
  }

  /** Only variables of functions are captured. */
  predicate CapturesOk(t: Table) {
    forall i :: 0 <= i < |t.free| ==> t.free[i].scope == Local || t.free[i].scope == Free
  }

  ghost predicate EntryOk(c: Chain, k: nat, name: string)
    requires k < |c| && name in c[k].store
  {
    var s := c[k].store[name];
    && s.name == name
    && (s.scope == Local ==> FuncOf(c, k) > 0 && (!c[k].block ==> s.hasValue))
    && (s.scope == Free ==>
          && k > 0 && !c[k].block && s.index < |c[k].free|
          && Binding(c[..k], name, true).Some?
          && Target(c[..k], c[k].free[s.index]) == Binding(c[..k], name, true))
  }

  ghost predicate Inv(c: Chain) {
    !c[0].block && forall k :: 0 <= k < |c| ==> TableOk(c, k)
  }

  // ----- facts about chains -----

  lemma {:induction false} FuncOfPrefix(c: seq<Table>, n: nat, k: nat)
    requires k < n <= |c|
    ensures FuncOf(c[..n], k) == FuncOf(c, k)
  {
    if k > 0 && c[k].block { FuncOfPrefix(c, n, k - 1); }
  }

  lemma InvPrefix(c: Chain, n: nat)
    requires Inv(c) && 0 < n <= |c|
    ensures Inv(c[..n])
  {
    forall k | 0 <= k < n
      ensures TableOk(c[..n], k)
    {
      assert TableOk(c, k) && c[..n][k] == c[k] && c[..n][..k] == c[..k];
      FuncOfPrefix(c, n, k);
      forall name | name in c[k].store ensures EntryOk(c[..n], k, name) { assert EntryOk(c, k, name); }
    }
  }

  /** Only captured variables have been added; counters may differ. */
  ghost predicate TableGrows(t: Table, t': Table) {
    && t'.block == t.block
    && |t.free| <= |t'.free| && t'.free[..|t.free|] == t.free
    && (forall x <- t.store :: x in t'.store && t'.store[x] == t.store[x])
    && (forall x <- t'.store :: x in t.store || t'.store[x].scope == Free)
  }

  ghost predicate Grows(c: Chain, c': Chain) {
    |c'| == |c| && forall k :: 0 <= k < |c| ==> TableGrows(c[k], c'[k])
  }

  lemma {:induction false} GrowsFuncOf(c: Chain, c': Chain, k: nat)
    requires Grows(c, c') && k < |c|
    ensures FuncOf(c', k) == FuncOf(c, k)
  {
    hide TableGrows;
    assert c'[k].block == c[k].block by { BlockStays(c[k], c'[k]); }
    if k > 0 && c[k].block { GrowsFuncOf(c, c', k - 1); }
  }

  lemma BlockStays(t: Table, t': Table)
    requires TableGrows(t, t')
    ensures t'.block == t.block
  {
  }

  lemma GrowsPrefix(c: Chain, c': Chain, n: nat)
    requires Grows(c, c') && 0 < n <= |c|
    ensures Grows(c[..n], c'[..n])
  {
    hide TableGrows;
  }

  /** Capturing variables does not change what names mean. */
  lemma {:induction false} GrowsBinding(c: Chain, c': Chain, x: string, recur: bool)
    requires Grows(c, c')
    ensures Binding(c', x, recur) == Binding(c, x, recur)
    decreases |c|
  {
    var n := |c| - 1;
    assert TableGrows(c[n], c'[n]);
    GrowsFuncOf(c, c', n);
    if n > 0 {
      GrowsPrefix(c, c', n);
      GrowsBinding(c[..n], c'[..n], x, true);
    }
  }

  /** Nor what symbols denote. */
  lemma {:induction false} GrowsTarget(c: Chain, c': Chain, s: Symbol)
    requires Grows(c, c') && Target(c, s).Some?
    ensures Target(c', s) == Target(c, s)
    decreases |c|
  {
    var n := |c| - 1;
    var f := FuncOf(c, n);
    GrowsFuncOf(c, c', n);
    assert TableGrows(c[f], c'[f]);
    if s.scope == Free {
      GrowsPrefix(c, c', f);
      assert c'[f].free[..|c[f].free|][s.index] == c[f].free[s.index];
      GrowsTarget(c[..f], c'[..f], c[f].free[s.index]);
    }
  }

  /** A symbol means the same in a block as around it. */
  lemma TargetInBlock(c: Chain, t: Table, s: Symbol)
    requires t.block
    ensures Target(c + [t], s) == Target(c, s)
  {
    var c' := c + [t];
    assert c'[..|c|] == c;
    FuncOfPrefix(c', |c|, |c| - 1);
    assert FuncOf(c', |c|) == FuncOf(c, |c| - 1);
    var f := FuncOf(c, |c| - 1);
    assert c'[..f] == c[..f];
  }

  lemma InvMore(outer: Chain, t: Table)
    requires Inv(outer) && TableOk(outer + [t], |outer|)
    ensures Inv(outer + [t])
  {
    var c := outer + [t];
    forall k | 0 <= k < |c|
      ensures TableOk(c, k)
    {
      if k < |outer| {
        assert c[..|outer|] == outer && TableOk(outer, k) && c[k] == outer[k] && c[..k] == outer[..k];
        FuncOfPrefix(c, |outer|, k);
        forall name | name in c[k].store ensures EntryOk(c, k, name) { assert EntryOk(outer, k, name); }
      }
    }
  }

  /** The entries of the last table stay right when the tables before it capture variables. */
  lemma EntryStays(c: Chain, outer: Chain, t: Table, name: string)
    requires Inv(c) && |c| > 1 && Grows(c[..|c| - 1], outer) && TableGrows(c[|c| - 1], t)
    requires name in c[|c| - 1].store
    ensures EntryOk(outer + [t], |c| - 1, name)
  {
    var n := |c| - 1;
    var c' := outer + [t];
    assert TableOk(c, n) && EntryOk(c, n, name);
    assert c'[..n] == outer;
    ChainGrows(c, outer, t);
    GrowsFuncOf(c, c', n);
    var s := c[n].store[name];
    if s.scope == Free {
      GrowsBinding(c[..n], outer, name, true);
      GrowsTarget(c[..n], outer, c[n].free[s.index]);
      assert t.free[..|c[n].free|][s.index] == c[n].free[s.index];
    }
  }

  lemma ChainGrows(c: Chain, outer: Chain, t: Table)
    requires |c| > 1 && Grows(c[..|c| - 1], outer) && TableGrows(c[|c| - 1], t)
    ensures Grows(c, outer + [t])
  {
    hide TableGrows;
    var n := |c| - 1;
    forall k | 0 <= k < |c|
      ensures TableGrows(c[k], (outer + [t])[k])
    {
      if k < n { assert c[..n][k] == c[k]; }
    }
  }

  lemma GrowsNot(c: Chain)
    ensures Grows(c, c)
  {
  }

  // ----- the theorem -----

  ghost predicate Resolved(c: Chain, name: string, recur: bool, r: (Chain, Option<Symbol>)) {
    && Inv(r.0) && Grows(c, r.0)
    && (r.1.Some? <==> Binding(c, name, recur).Some?)
    && (r.1.Some? ==> r.1.value.name == name && Target(r.0, r.1.value) == Binding(c, name, recur))
  }

  lemma FoundHere(c: Chain, name: string, recur: bool)
    requires Inv(c) && name in c[|c| - 1].store && Usable(c[|c| - 1].store[name], recur)
    ensures Resolved(c, name, recur, (c, Some(c[|c| - 1].store[name])))
  {
    var n := |c| - 1;
    assert TableOk(c, n) && EntryOk(c, n, name);
    GrowsNot(c);
  }

  /** Resolve finds the binding that lexical scoping selects; a variable of an enclosing function is
      captured through every function in between. */
  lemma {:induction false} ResolveIsLexical(c: Chain, name: string, recur: bool)
    requires Inv(c)
    ensures Resolved(c, name, recur, Resolve(c, name, recur))
    decreases |c|
  {
    hide Inv, Grows, Resolved;
    var n := |c| - 1;
    var t := c[n];
    if name in t.store && Usable(t.store[name], recur) {
      FoundHere(c, name, recur);
    } else if n == 0 {
      NotFound(c, name, recur);
    } else {
      InvPrefix(c, n);
      ResolveIsLexical(c[..n], name, true);
      var (outer, found) := Resolve(c[..n], name, true);
      if found.Some? && !t.block && found.value.scope != Global && found.value.scope != Builtin {
        Captured(c, name, recur, outer, found.value);
      } else {
        PassedOn(c, name, recur, outer, found);
      }
    }
  }

  lemma NotFound(c: Chain, name: string, recur: bool)
    requires Inv(c) && |c| == 1 && !(name in c[0].store && Usable(c[0].store[name], recur))
    ensures Resolved(c, name, recur, (c, None))
  {
    GrowsNot(c);
  }

  lemma PassedOn(c: Chain, name: string, recur: bool, outer: Chain, found: Option<Symbol>)
    requires Inv(c) && |c| > 1 && Resolved(c[..|c| - 1], name, true, (outer, found))
    requires !(name in c[|c| - 1].store && Usable(c[|c| - 1].store[name], recur))
    requires found.Some? ==> c[|c| - 1].block || found.value.scope == Global || found.value.scope == Builtin
    ensures Resolved(c, name, recur, (outer + [c[|c| - 1]], found))
  {
    hide TableOk, EntryOk;
    var n := |c| - 1;
    var t := c[n];
    SameTable(t);
    ChainGrows(c, outer, t);
    forall x | x in t.store ensures EntryOk(outer + [t], n, x) { EntryStays(c, outer, t, x); }
    LastCaptures(c);
    LastOk(outer, t);
    InvMore(outer, t);
    if found.Some? && t.block { TargetInBlock(outer, t, found.value); }
  }

  lemma LastCaptures(c: Chain)
    requires Inv(c)
    ensures CapturesOk(c[|c| - 1])
  {
    assert TableOk(c, |c| - 1);
  }

  lemma SameTable(t: Table)
    ensures TableGrows(t, t)
  {
  }

  lemma LastOk(outer: Chain, t: Table)
    requires (forall x <- t.store :: EntryOk(outer + [t], |outer|, x)) && CapturesOk(t)
    ensures TableOk(outer + [t], |outer|)
  {
    hide EntryOk;
  }

  lemma Captured(c: Chain, name: string, recur: bool, outer: Chain, found: Symbol)
    requires Inv(c) && |c| > 1 && Resolved(c[..|c| - 1], name, true, (outer, Some(found)))
    requires found.scope == Local || found.scope == Free
    requires !(name in c[|c| - 1].store && Usable(c[|c| - 1].store[name], recur)) && !c[|c| - 1].block
    ensures var t := c[|c| - 1];
            var s := Symbol(name, Free, |t.free|, false);
            Resolved(c, name, recur, (outer + [t.(free := t.free + [found], store := t.store[name := s])], Some(s)))
  {
    hide TableOk, EntryOk, Binding, Target;
    var n := |c| - 1;
    var t := c[n];
    NotDefinedHere(c, name, recur);
    var s := Symbol(name, Free, |t.free|, false);
    var t' := t.(free := t.free + [found], store := t.store[name := s]);
    ChainGrows(c, outer, t');
    GrowsBinding(c[..n], outer, name, true);
    forall x | x in t'.store ensures EntryOk(outer + [t'], n, x) {
      if x == name { NewEntry(outer, t', name, s, found); } else { EntryStays(c, outer, t', x); }
    }
    LastCaptures(c);
    LastOk(outer, t');
    InvMore(outer, t');
    NewTarget(outer, t', s, found);
  }

  lemma NotDefinedHere(c: Chain, name: string, recur: bool)
    requires Inv(c) && |c| > 1 && !c[|c| - 1].block
    requires !(name in c[|c| - 1].store && Usable(c[|c| - 1].store[name], recur))
    ensures name !in c[|c| - 1].store && Binding(c, name, recur) == Binding(c[..|c| - 1], name, true)
  {
    var n := |c| - 1;
    assert TableOk(c, n);
  }

  lemma NewEntry(outer: Chain, t: Table, name: string, s: Symbol, found: Symbol)
    requires !t.block && |t.free| > 0 && s == Symbol(name, Free, |t.free| - 1, false) && t.free[|t.free| - 1] == found
    requires name in t.store && t.store[name] == s
    requires Binding(outer, name, true).Some? && Target(outer, found) == Binding(outer, name, true)
    ensures EntryOk(outer + [t], |outer|, name)
  {
    assert (outer + [t])[..|outer|] == outer;
  }

  lemma NewTarget(outer: Chain, t: Table, s: Symbol, found: Symbol)
    requires !t.block && s.scope == Free && s.index < |t.free| && t.free[s.index] == found
    ensures Target(outer + [t], s) == Target(outer, found)
  {
    assert (outer + [t])[..|outer|] == outer;
  }

  // ----- defining -----

  function NextIndex(c: Chain): nat
    decreases |c|
  {
    var n := |c| - 1;
    if c[n].block && n > 0 then NextIndex(c[..n]) + c[n].numDefinition else c[n].numDefinition
  }

  /** updateMaxDefs, up to the table of the function. */
  function RaiseMax(c: Chain, k: nat, m: nat): (r: Chain)
    requires k < |c|
    ensures |r| == |c|
    decreases k
  {
    var t := c[k];
    var c1 := c[k := if m > t.maxDefinition then t.(maxDefinition := m) else t];
    if t.block && k > 0 then RaiseMax(c1, k - 1, m) else c1
  }

  predicate SameButMax(t: Table, t': Table) {
    t'.block == t.block && t'.store == t.store && t'.numDefinition == t.numDefinition && t'.free == t.free
    && t'.maxDefinition >= t.maxDefinition
  }

  /** Exactly the tables from the one given down to that of its function are raised, and none further
      than to m: the size a function announces is the least that covers its slots. */
  lemma {:induction false} RaiseMaxExact(c: Chain, k: nat, m: nat, j: nat)
    requires k < |c| && j < |c|
    ensures RaiseMax(c, k, m)[j].maxDefinition
            == if FuncOf(c, k) <= j <= k && m > c[j].maxDefinition then m else c[j].maxDefinition
    decreases k
  {
    var t := c[k];
    var c1 := c[k := if m > t.maxDefinition then t.(maxDefinition := m) else t];
    if t.block && k > 0 {
      FuncSame(c, c1, k - 1);
      RaiseMaxExact(c1, k - 1, m, j);
    }
  }

  lemma {:induction false} RaiseMaxIs(c: Chain, k: nat, m: nat)
    requires k < |c|
    ensures forall j: nat :: j < |c| ==> SameButMax(c[j], RaiseMax(c, k, m)[j])
    ensures RaiseMax(c, k, m)[FuncOf(c, k)].maxDefinition >= m
    decreases k
  {
    var t := c[k];
    var t1 := if m > t.maxDefinition then t.(maxDefinition := m) else t;
    var c1 := c[k := t1];
    if t.block && k > 0 {
      RaiseFuncOf(c, c1, k - 1);
      RaiseMaxIs(c1, k - 1, m);
      forall j: nat | j < |c| ensures SameButMax(c[j], RaiseMax(c, k, m)[j]) {
        assert SameButMax(c1[j], RaiseMax(c1, k - 1, m)[j]);
      }
    }
  }

  lemma {:induction false} RaiseFuncOf(c: Chain, c': Chain, k: nat)
    requires |c'| == |c| && k < |c| && forall j :: 0 <= j < |c| ==> c'[j].block == c[j].block
    ensures FuncOf(c', k) == FuncOf(c, k)
  {
    if k > 0 && c[k].block { RaiseFuncOf(c, c', k - 1); }
  }

  /** Define before the sizes are raised. */
  function Entered(c: Chain, name: string, s: Symbol): Chain {
    var n := |c| - 1;
    var k := if s.scope == Global then 0 else n;
    var c1 := c[k := c[k].(numDefinition := c[k].numDefinition + 1)];
    c1[n := c1[n].(store := c1[n].store[name := s])]
  }

  /** Define: outside functions the root counts, inside them the current table. */
  function Define(c: Chain, name: string, hasValue: bool): (Chain, Symbol) {
    var n := |c| - 1;
    var s := Symbol(name, if FuncOf(c, n) == 0 then Global else Local, NextIndex(c), hasValue);
    (RaiseMax(Entered(c, name, s), n, s.index + 1), s)
  }

  function Fork(c: Chain, block: bool): Chain { c + [Table(block, map[], 0, 0, [])] }

  /** Where the slots of table k begin in the frame of its function. */
  function Base(c: seq<Table>, k: nat): nat
    requires k < |c|
  {
    if c[k].block && k > 0 then Base(c, k - 1) + c[k - 1].numDefinition else 0
  }

  predicate SlotOk(c: Chain, k: nat, x: string)
    requires k < |c| && x in c[k].store
  {
    var s := c[k].store[x];
    && (s.scope == Local ==> Base(c, k) <= s.index < Base(c, k) + c[k].numDefinition)
    && (s.scope == Global ==> FuncOf(c, k) == 0 && s.index < c[0].numDefinition)
  }

  predicate IsDef(c: Chain, k: nat, x: string, scope: Scope) {
    k < |c| && x in c[k].store && c[k].store[x].scope == scope
  }

  ghost predicate InRange(c: Chain) { forall k: nat, x :: k < |c| && x in c[k].store ==> SlotOk(c, k, x) }

  ghost predicate LocalsDiffer(c: Chain) {
    forall k: nat, x, y :: IsDef(c, k, x, Local) && IsDef(c, k, y, Local) && c[k].store[x].index == c[k].store[y].index
        ==> x == y
  }

  ghost predicate GlobalsDiffer(c: Chain) {
    forall k: nat, x, l: nat, y ::
      IsDef(c, k, x, Global) && IsDef(c, l, y, Global) && c[k].store[x].index == c[l].store[y].index
      ==> k == l && x == y
  }

  /** Blocks outside functions count nothing; the announced size covers all open blocks. */
  predicate CountOk(c: Chain, k: nat)
    requires k < |c|
  {
    && (k > 0 && FuncOf(c, k) == 0 ==> c[k].numDefinition == 0)
    && (FuncOf(c, k) > 0 ==> Base(c, k) + c[k].numDefinition <= c[FuncOf(c, k)].maxDefinition)
  }

  ghost predicate Counts(c: Chain) { forall k: nat :: k < |c| ==> CountOk(c, k) }

  ghost predicate Slots(c: Chain) { InRange(c) && LocalsDiffer(c) && GlobalsDiffer(c) && Counts(c) }

  lemma {:induction false} NextIndexIs(c: Chain)
    ensures NextIndex(c) == Base(c, |c| - 1) + c[|c| - 1].numDefinition
    decreases |c|
  {
    var n := |c| - 1;
    if c[n].block && n > 0 {
      NextIndexIs(c[..n]);
      BasePrefix(c, n, n - 1);
    }
  }

  lemma {:induction false} BasePrefix(c: Chain, n: nat, k: nat)
    requires k < n <= |c|
    ensures Base(c[..n], k) == Base(c, k)
  {
    if k > 0 && c[k].block { BasePrefix(c, n, k - 1); }
  }

  /** Blocks deeper in a function begin behind the shallower ones. */
  lemma {:induction false} BasesGrow(c: Chain, j: nat, k: nat)
    requires j < k < |c| && FuncOf(c, j) == FuncOf(c, k)
    ensures Base(c, j) + c[j].numDefinition <= Base(c, k)
    decreases k
  {
    FuncInside(c, j, k);
    if j < k - 1 {
      BasesGrow(c, j, k - 1);
    }
  }

  lemma {:induction false} FuncInside(c: Chain, j: nat, k: nat)
    requires j < k < |c| && FuncOf(c, j) == FuncOf(c, k)
    ensures c[k].block && FuncOf(c, k - 1) == FuncOf(c, k)
  {
  }

  /** Where a binding comes from. */
  lemma {:induction false} BindingFrom(c: Chain, x: string, recur: bool) returns (k: nat)
    requires Binding(c, x, recur).Some?
    ensures k < |c| && x in c[k].store && c[k].store[x].scope != Free
    ensures Binding(c, x, recur).value == SlotOf(c, k, c[k].store[x])
    decreases |c|
  {
    var n := |c| - 1;
    if x in c[n].store && c[n].store[x].scope != Free && Usable(c[n].store[x], recur) {
      k := n;
    } else {
      k := BindingFrom(c[..n], x, true);
      FuncOfPrefix(c, n, k);
    }
  }

  /** Visible variables of one function have different slots, all within the frame that MaxSymbols
      announces; visible globals have different indices. */
  lemma VisibleAreDistinct(c: Chain, x: string, y: string, rx: bool, ry: bool)
    requires Slots(c) && x != y && Binding(c, x, rx).Some? && Binding(c, y, ry).Some?
    requires !Binding(c, x, rx).value.BuiltinSlot?
    ensures Binding(c, x, rx) != Binding(c, y, ry)
    ensures Binding(c, x, rx).value.LocalSlot? && Binding(c, x, rx).value.f > 0 ==>
              Binding(c, x, rx).value.f < |c| && Binding(c, x, rx).value.i < c[Binding(c, x, rx).value.f].maxDefinition
  {
    var k := BindingFrom(c, x, rx);
    var l := BindingFrom(c, y, ry);
    assert SlotOk(c, k, x) && SlotOk(c, l, y) && CountOk(c, k);
    assert IsDef(c, k, x, c[k].store[x].scope) && IsDef(c, l, y, c[l].store[y].scope);
    if k < l && FuncOf(c, k) == FuncOf(c, l) { BasesGrow(c, k, l); }
    if l < k && FuncOf(c, k) == FuncOf(c, l) { BasesGrow(c, l, k); }
  }

  // ----- every operation keeps this -----

  lemma {:induction false} BaseSame(c: seq<Table>, c': seq<Table>, k: nat)
    requires k < |c| && k < |c'|
    requires forall j :: 0 <= j <= k ==> c'[j].block == c[j].block
    requires forall j :: 0 <= j < k ==> c'[j].numDefinition == c[j].numDefinition
    ensures Base(c', k) == Base(c, k)
  {
    if k > 0 && c[k].block { BaseSame(c, c', k - 1); }
  }

  lemma {:induction false} FuncSame(c: seq<Table>, c': seq<Table>, k: nat)
    requires k < |c| && k < |c'| && forall j :: 0 <= j <= k ==> c'[j].block == c[j].block
    ensures FuncOf(c', k) == FuncOf(c, k)
  {
    if k > 0 && c[k].block { FuncSame(c, c', k - 1); }
  }

  /** c' has the tables of c, or some of the first ones, with no other definitions, and at most one
      new and empty table behind them. */
  ghost predicate Subchain(c: Chain, c': Chain) {
    |c'| <= |c| + 1 && forall k: nat :: k < |c'| ==> SubtableAt(c, c', k)
  }

  predicate SubtableAt(c: Chain, c': Chain, k: nat)
    requires k < |c'|
  {
    if k < |c| then
      && c'[k].block == c[k].block && c'[k].numDefinition == c[k].numDefinition
        && c'[k].maxDefinition == c[k].maxDefinition
      && (forall x <- c'[k].store ::
           c'[k].store[x].scope == Free || (x in c[k].store && c[k].store[x] == c'[k].store[x]))
    else c'[k].store == map[] && c'[k].numDefinition == 0
  }

  lemma SubchainPlaces(c: Chain, c': Chain, k: nat)
    requires Subchain(c, c') && k < |c| && k < |c'|
    ensures FuncOf(c', k) == FuncOf(c, k) && Base(c', k) == Base(c, k)
  {
    forall j | 0 <= j <= k ensures c'[j].block == c[j].block && c'[j].numDefinition == c[j].numDefinition {
      assert SubtableAt(c, c', j);
    }
    FuncSame(c, c', k);
    BaseSame(c, c', k);
  }

  lemma SubchainInRange(c: Chain, c': Chain)
    requires InRange(c) && Subchain(c, c')
    ensures InRange(c')
  {
    hide FuncOf, Base;
    forall k: nat, x | k < |c'| && x in c'[k].store
      ensures SlotOk(c', k, x)
    {
      assert SubtableAt(c, c', k) && SubtableAt(c, c', 0);
      if c'[k].store[x].scope != Free {
        SubchainPlaces(c, c', k);
        assert SlotOk(c, k, x);
      }
    }
  }

  lemma SubchainDiffer(c: Chain, c': Chain)
    requires LocalsDiffer(c) && GlobalsDiffer(c) && Subchain(c, c')
    ensures LocalsDiffer(c') && GlobalsDiffer(c')
  {
    forall k: nat, x, s: Scope | IsDef(c', k, x, s) && s != Free
      ensures IsDef(c, k, x, s) && c[k].store[x] == c'[k].store[x]
    {
      assert SubtableAt(c, c', k);
    }
  }

  lemma SubchainCounts(c: Chain, c': Chain)
    requires Counts(c) && Subchain(c, c')
    ensures Counts(c')
  {
    forall k: nat | k < |c'|
      ensures CountOk(c', k)
    {
      assert SubtableAt(c, c', k);
      if k < |c| {
        SubchainPlaces(c, c', k);
        assert CountOk(c, k) && SubtableAt(c, c', FuncOf(c, k));
      } else {
        assert CountOk(c, k - 1) && SubtableAt(c, c', k - 1);
        SubchainPlaces(c, c', k - 1);
        if c'[k].block { assert SubtableAt(c, c', FuncOf(c, k - 1)); }
      }
    }
  }

  lemma SubchainSlots(c: Chain, c': Chain)
    requires Slots(c) && Subchain(c, c')
    ensures Slots(c')
  {
    hide InRange, LocalsDiffer, GlobalsDiffer, Counts, Subchain;
    SubchainInRange(c, c');
    SubchainDiffer(c, c');
    SubchainCounts(c, c');
  }

  lemma ForkKeeps(c: Chain, block: bool)
    requires Inv(c) && Slots(c)
    ensures Inv(Fork(c, block)) && Slots(Fork(c, block))
  {
    hide Slots;
    InvMore(c, Table(block, map[], 0, 0, []));
    SubchainSlots(c, Fork(c, block));
  }

  lemma LeaveKeeps(c: Chain)
    requires Inv(c) && Slots(c) && |c| > 1
    ensures Inv(c[..|c| - 1]) && Slots(c[..|c| - 1])
  {
    hide Slots, Inv;
    InvPrefix(c, |c| - 1);
    SubchainSlots(c, c[..|c| - 1]);
  }

  lemma {:induction false} ResolveIsSubchain(c: Chain, name: string, recur: bool)
    ensures Subchain(c, Resolve(c, name, recur).0)
    decreases |c|
  {
    var n := |c| - 1;
    var c' := Resolve(c, name, recur).0;
    if n > 0 && !(name in c[n].store && Usable(c[n].store[name], recur)) {
      ResolveIsSubchain(c[..n], name, true);
      var outer := Resolve(c[..n], name, true).0;
      forall k: nat | k < |c'|
        ensures SubtableAt(c, c', k)
      {
        if k < n { assert SubtableAt(c[..n], outer, k); }
      }
    }
  }

  /** Whatever a Resolve finds, the next one starts from a good state. */
  lemma ResolveKeeps(c: Chain, name: string, recur: bool)
    requires Inv(c) && Slots(c)
    ensures Inv(Resolve(c, name, recur).0) && Slots(Resolve(c, name, recur).0)
  {
    hide Slots, Inv, Subchain;
    ResolveIsLexical(c, name, recur);
    ResolveIsSubchain(c, name, recur);
    SubchainSlots(c, Resolve(c, name, recur).0);
  }

  // ----- definitions keep it -----

  /** c' differs from c in counters, and in the entry of one name in the last table. */
  ghost predicate Redefined(c: Chain, c': Chain, name: string) {
    var n := |c| - 1;
    && |c'| == |c|
    && (forall k: nat :: k < n ==> c'[k].block == c[k].block && c'[k].store == c[k].store && c'[k].free == c[k].free)
    && c'[n].block == c[n].block && c'[n].free == c[n].free && name in c'[n].store
    && c'[n].store == c[n].store[name := c'[n].store[name]]
  }

  lemma EnteredIs(c: Chain, name: string, s: Symbol)
    ensures var c' := Entered(c, name, s);
            && Redefined(c, c', name) && c'[|c| - 1].store[name] == s
            && forall k: nat :: k < |c| ==>
                 c'[k].numDefinition == c[k].numDefinition
                     + (if k == (if s.scope == Global then 0 else |c| - 1) then 1 else 0)
                 && c'[k].maxDefinition == c[k].maxDefinition && c'[k].block == c[k].block
  {
  }

  lemma DefineIs(c: Chain, name: string, hasValue: bool)
    ensures var (c', s) := Define(c, name, hasValue);
            && Redefined(c, c', name) && c'[|c| - 1].store[name] == s
            && s == Symbol(name, if FuncOf(c, |c| - 1) == 0 then Global else Local, NextIndex(c), hasValue)
            && forall k: nat :: k < |c| ==>
                 c'[k].numDefinition == c[k].numDefinition
                     + (if k == (if s.scope == Global then 0 else |c| - 1) then 1 else 0)
  {
    hide RaiseMax, NextIndex, Entered, FuncOf, Redefined, SameButMax;
    var (c', s) := Define(c, name, hasValue);
    var e := Entered(c, name, s);
    EnteredIs(c, name, s);
    RaiseMaxIs(e, |c| - 1, s.index + 1);
    assert c' == RaiseMax(e, |c| - 1, s.index + 1);
    MaxOnly(c, e, c', name);
  }

  lemma MaxOnly(c: Chain, e: Chain, c': Chain, name: string)
    requires Redefined(c, e, name) && |c'| == |e| && forall j: nat :: j < |e| ==> SameButMax(e[j], c'[j])
    ensures Redefined(c, c', name)
    ensures c'[|c| - 1].store == e[|c| - 1].store
    ensures forall k: nat :: k < |c| ==> c'[k].numDefinition == e[k].numDefinition
  {
    assert SameButMax(e[|c| - 1], c'[|c| - 1]);
    forall k: nat | k < |c| ensures SameButMax(e[k], c'[k]) {}
  }

  lemma DefineMax(c: Chain, name: string, hasValue: bool)
    ensures var (c', s) := Define(c, name, hasValue);
            var f := FuncOf(c, |c| - 1);
            && (forall k: nat :: k < |c| ==> c'[k].maxDefinition >= c[k].maxDefinition)
            && c'[f].maxDefinition >= s.index + 1
  {
    hide RaiseMax, NextIndex, Redefined, Entered, FuncOf;
    var (c', s) := Define(c, name, hasValue);
    var e := Entered(c, name, s);
    EnteredIs(c, name, s);
    RaiseFuncOf(c, e, |c| - 1);
    RaiseMaxIs(e, |c| - 1, s.index + 1);
    assert c' == RaiseMax(e, |c| - 1, s.index + 1);
    forall k: nat | k < |c| ensures c'[k].maxDefinition >= c[k].maxDefinition { assert SameButMax(e[k], c'[k]); }
  }

  lemma RedefinedPrefix(c: Chain, c': Chain, name: string, k: nat)
    requires Redefined(c, c', name) && 0 < k < |c|
    ensures Grows(c[..k], c'[..k])
  {
  }

  lemma EntryKept(c: Chain, c': Chain, name: string, k: nat, x: string)
    requires Redefined(c, c', name) && k < |c| && x in c[k].store && EntryOk(c, k, x) && (k == |c| - 1 ==> x != name)
    ensures x in c'[k].store && EntryOk(c', k, x)
  {
    FuncSame(c, c', k);
    var s := c[k].store[x];
    if s.scope == Free {
      RedefinedPrefix(c, c', name, k);
      GrowsBinding(c[..k], c'[..k], x, true);
      GrowsTarget(c[..k], c'[..k], c[k].free[s.index]);
    }
  }

  lemma DefineKeepsInv(c: Chain, name: string, hasValue: bool)
    requires Inv(c) && (FuncOf(c, |c| - 1) > 0 && !c[|c| - 1].block ==> hasValue)
    ensures Inv(Define(c, name, hasValue).0)
  {
    hide EntryOk, Define;
    var (c', s) := Define(c, name, hasValue);
    DefineIs(c, name, hasValue);
    forall k: nat | k < |c'|
      ensures TableOk(c', k)
    {
      forall x | x in c'[k].store ensures EntryOk(c', k, x) {
        assert TableOk(c, k);
        if k == |c| - 1 && x == name { NewEntryOk(c, c', name); } else { EntryKept(c, c', name, k, x); }
      }
    }
  }

  lemma NewEntryOk(c: Chain, c': Chain, name: string)
    requires Redefined(c, c', name)
    requires var n, s := |c| - 1, c'[|c| - 1].store[name];
             && s.name == name && s.scope == (if FuncOf(c, n) == 0 then Global else Local)
             && (FuncOf(c, n) > 0 && !c[n].block ==> s.hasValue)
    ensures EntryOk(c', |c| - 1, name)
  {
    FuncSame(c, c', |c| - 1);
  }

  /** Where nothing but blocks is open outside functions, everything is. */
  lemma {:induction false} AllOutside(c: Chain, n: nat, k: nat)
    requires k <= n < |c| && FuncOf(c, n) == 0
    ensures FuncOf(c, k) == 0
  {
    if k < n { AllOutside(c, n - 1, k); }
  }

  /** The definitions that were there before. */
  lemma OldEntry(c: Chain, c': Chain, name: string, k: nat, x: string)
    requires Redefined(c, c', name) && k < |c| && x in c'[k].store && !(k == |c| - 1 && x == name)
    ensures x in c[k].store && c'[k].store[x] == c[k].store[x]
  {
  }

  lemma SameShape(c: Chain, c': Chain, name: string, k: nat)
    requires Redefined(c, c', name) && k < |c'|
    ensures |c'| == |c| && FuncOf(c', k) == FuncOf(c, k)
  {
    FuncSame(c, c', k);
  }

  /** Outside functions there are no local definitions. */
  lemma NoLocals(c: Chain, k: nat, x: string)
    requires Inv(c) && k < |c| && x in c[k].store && FuncOf(c, k) == 0
    ensures c[k].store[x].scope != Local
  {
    assert TableOk(c, k) && EntryOk(c, k, x);
  }

  lemma GlobalRange(c: Chain, c': Chain, name: string)
    requires Inv(c) && InRange(c) && Redefined(c, c', name) && FuncOf(c, |c| - 1) == 0
    requires c'[0].numDefinition == c[0].numDefinition + 1
    requires var s := c'[|c| - 1].store[name]; s.scope == Global && s.index == c[0].numDefinition
    ensures InRange(c')
  {
    hide Redefined, Base, Inv;
    forall k: nat, x | k < |c'| && x in c'[k].store
      ensures SlotOk(c', k, x)
    {
      SameShape(c, c', name, k);
      AllOutside(c, |c| - 1, k);
      if !(k == |c| - 1 && x == name) {
        OldEntry(c, c', name, k, x);
        assert SlotOk(c, k, x);
        NoLocals(c, k, x);
      }
    }
  }

  /** A new index is different from the old ones of its kind. */
  lemma DifferMore(c: Chain, c': Chain, name: string)
    requires LocalsDiffer(c) && GlobalsDiffer(c) && Redefined(c, c', name)
    requires var n, s := |c| - 1, c'[|c| - 1].store[name];
             && (s.scope == Global || s.scope == Local)
             && (s.scope == Global ==> forall k: nat, x :: IsDef(c, k, x, Global) ==> c[k].store[x].index != s.index)
             && (s.scope == Local ==> forall x :: IsDef(c, n, x, Local) ==> c[n].store[x].index != s.index)
    ensures LocalsDiffer(c') && GlobalsDiffer(c')
  {
    hide Redefined;
    SameShape(c, c', name, 0);
    forall k: nat, x, t: Scope | IsDef(c', k, x, t) && !(k == |c| - 1 && x == name)
      ensures IsDef(c, k, x, t) && c'[k].store[x] == c[k].store[x]
    {
      OldEntry(c, c', name, k, x);
    }
  }

  lemma CountsGlobal(c: Chain, c': Chain, name: string)
    requires Counts(c) && Redefined(c, c', name) && FuncOf(c, |c| - 1) == 0
    requires forall k: nat :: 0 < k < |c| ==> c'[k].numDefinition == c[k].numDefinition
    ensures Counts(c')
  {
    hide Redefined, Base;
    forall k: nat | k < |c'|
      ensures CountOk(c', k)
    {
      SameShape(c, c', name, k);
      AllOutside(c, |c| - 1, k);
      assert CountOk(c, k);
    }
  }

  lemma DefineGlobalKeeps(c: Chain, name: string, hasValue: bool)
    requires Inv(c) && Slots(c) && FuncOf(c, |c| - 1) == 0
    ensures Slots(Define(c, name, hasValue).0)
  {
    hide Define, NextIndex, Redefined, Counts, LocalsDiffer, GlobalsDiffer, Inv;
    var c' := Define(c, name, hasValue).0;
    DefineIs(c, name, hasValue);
    GlobalIndex(c);
    GlobalRange(c, c', name);
    forall k: nat, x | IsDef(c, k, x, Global) ensures c[k].store[x].index != c[0].numDefinition {
      assert SlotOk(c, k, x);
    }
    DifferMore(c, c', name);
    CountsGlobal(c, c', name);
  }

  // ----- inside functions -----

  lemma LocalPlaces(c: Chain, c': Chain, name: string, k: nat)
    requires Redefined(c, c', name) && k < |c| && forall j: nat ::
               j < |c| - 1 ==> c'[j].numDefinition == c[j].numDefinition
    ensures FuncOf(c', k) == FuncOf(c, k) && Base(c', k) == Base(c, k)
  {
    SameShape(c, c', name, k);
    BaseSame(c, c', k);
  }

  lemma LocalRange(c: Chain, c': Chain, name: string)
    requires InRange(c) && Redefined(c, c', name)
    requires forall j: nat :: j < |c| - 1 ==> c'[j].numDefinition == c[j].numDefinition
    requires var n, s := |c| - 1, c'[|c| - 1].store[name];
             && c'[n].numDefinition == c[n].numDefinition + 1 && FuncOf(c, n) > 0
             && s.scope == Local && s.index == Base(c, n) + c[n].numDefinition
    ensures InRange(c')
  {
    hide Redefined, Base;
    forall k: nat, x | k < |c'| && x in c'[k].store
      ensures SlotOk(c', k, x)
    {
      SameShape(c, c', name, k);
      LocalPlaces(c, c', name, k);
      if !(k == |c| - 1 && x == name) {
        OldEntry(c, c', name, k, x);
        assert SlotOk(c, k, x);
      }
      FuncBelow(c, |c| - 1);
    }
  }

  lemma FuncBelow(c: Chain, n: nat)
    requires n < |c| && FuncOf(c, n) > 0
    ensures n > 0
  {
  }

  lemma CountsLocal(c: Chain, c': Chain, name: string)
    requires Counts(c) && Redefined(c, c', name) && FuncOf(c, |c| - 1) > 0
    requires forall j: nat :: j < |c| - 1 ==> c'[j].numDefinition == c[j].numDefinition
    requires forall j: nat :: j < |c| ==> c'[j].maxDefinition >= c[j].maxDefinition
    requires var n := |c| - 1; Base(c, n) + c'[n].numDefinition <= c'[FuncOf(c, n)].maxDefinition
    ensures Counts(c')
  {
    hide Redefined, Base;
    forall k: nat | k < |c'|
      ensures CountOk(c', k)
    {
      SameShape(c, c', name, k);
      LocalPlaces(c, c', name, k);
      assert CountOk(c, k);
    }
  }

  lemma DefineLocalKeeps(c: Chain, name: string, hasValue: bool)
    requires Slots(c) && FuncOf(c, |c| - 1) > 0
    ensures Slots(Define(c, name, hasValue).0)
  {
    hide Define, NextIndex, Redefined, Counts, LocalsDiffer, GlobalsDiffer, Base;
    var c', n := Define(c, name, hasValue).0, |c| - 1;
    DefineIs(c, name, hasValue);
    DefineMax(c, name, hasValue);
    NextIndexIs(c);
    LocalRange(c, c', name);
    forall x | IsDef(c, n, x, Local) ensures c[n].store[x].index != NextIndex(c) { assert SlotOk(c, n, x); }
    DifferMore(c, c', name);
    CountsLocal(c, c', name);
  }

  /** Outside functions the root alone hands out indices. */
  lemma GlobalIndex(c: Chain)
    requires Counts(c) && FuncOf(c, |c| - 1) == 0
    ensures NextIndex(c) == c[0].numDefinition
  {
    var n := |c| - 1;
    NextIndexIs(c);
    ZeroBase(c, n);
    assert CountOk(c, n);
  }

  lemma {:induction false} ZeroBase(c: Chain, k: nat)
    requires Counts(c) && k < |c| && FuncOf(c, k) == 0
    ensures Base(c, k) == if k == 0 then 0 else c[0].numDefinition
  {
    if k > 0 {
      assert CountOk(c, k - 1);
      ZeroBase(c, k - 1);
    }
  }
}

/** The netlist builder of lib_carotte.py. The module-level globals of the
    library (the counter, the name set, the three ordered lists, the pending
    Defers and the ribbon flag) are the fields of one `Builder`; the Python
    objects (variables and Defers) live in two arenas and are named by index. */
module Carotte {
  import opened Decimal
  import opened Names
  import opened Circuit

  ghost predicate NoDup<T>(s: seq<T>) {
    forall p, q :: 0 <= p < q < |s| ==> s[p] != s[q]
  }

  /** `try: v.rename(...) except ValueError: return False`; a KeyError goes through. */
  function CatchValueError(o: Outcome): (r: Result<bool>)
    ensures r.Err? <==> o.Fail? && o.error != NameTaken
    ensures r.Err? ==> r.error == o.error
    ensures r.Ok? ==> (r.value <==> o.Pass?)
  {
    match o
    case Pass => Ok(true)
    case Fail(e) => if e == NameTaken then Ok(false) else Err(e)
  }

  /** The name a Slice or Select ends up with: its `_l_` name, unless the derived
      name it tries is free. */
  function CosmeticName(base: string, wanted: Option<string>, taken: set<string>): string
  {
    if wanted.Some? && wanted.value != base && wanted.value !in taken then wanted.value else base
  }

  /** Registering the auto-named `v` and then trying the cosmetic name `wanted`
      registers `v` under the name CosmeticName picks. */
  lemma CosmeticAfterRegister(vs: seq<Variable>, ns: set<string>, ow: map<string, nat>, v: Variable, wanted: string,
                              vs': seq<Variable>, ns': set<string>, ow': map<string, nat>)
    requires v.name !in ns && ow.Keys == ns && v.autogenName
    requires wanted != v.name && wanted !in ns ==>
      && vs' == (vs + [v])[|vs| := v.(name := wanted, autogenName := true)]
      && ns' == ns + {v.name} - {v.name} + {wanted}
      && ow' == (ow[v.name := |vs|] - {v.name})[wanted := |vs|]
    requires !(wanted != v.name && wanted !in ns) ==> vs' == vs + [v] && ns' == ns + {v.name} && ow' == ow[v.name := |vs|]
    ensures var n := CosmeticName(v.name, Some(wanted), ns);
      vs' == vs + [v.(name := n)] && ns' == ns + {n} && ow' == ow[n := |vs|]
  {
    if wanted != v.name && wanted !in ns {
      assert (vs + [v])[|vs| := v.(name := wanted, autogenName := true)] == vs + [v.(name := wanted)];
      assert ns + {v.name} - {v.name} + {wanted} == ns + {wanted};
    }
  }

  /** What the supplier of Defer `d` returns in `supply`; None when it raises. */
  function Supplied(supply: map<nat, nat>, d: nat): Option<nat>
  {
    if d in supply then Some(supply[d]) else None
  }

  /** Defers `ds` and pending set `p` after forcing, from `ds0` and `p0`, the Defers
      that are no longer pending: each of those cached what its supplier gave,
      and every other Defer is as it was. */
  ghost predicate ForcedFrom(ds0: seq<DeferCell>, p0: set<nat>, ds: seq<DeferCell>, p: set<nat>, supply: map<nat, nat>)
  {
    && p <= p0 && |ds| == |ds0|
    && forall d :: 0 <= d < |ds| ==> ds[d] == (if d in p0 && d !in p then ds0[d].(val := Supplied(supply, d)) else ds0[d])
  }

  /** Forcing one more pending Defer keeps the relation. */
  lemma ForcedStep(ds0: seq<DeferCell>, p0: set<nat>, ds: seq<DeferCell>, p: set<nat>, supply: map<nat, nat>,
                   d: nat, ds': seq<DeferCell>, p': set<nat>)
    requires ForcedFrom(ds0, p0, ds, p, supply) && d in p && d < |ds|
    requires p' == p - {d} && |ds'| == |ds| && ds'[d] == ds[d].(val := Supplied(supply, d))
    requires forall e :: 0 <= e < |ds| && e != d ==> ds'[e] == ds[e]
    ensures ForcedFrom(ds0, p0, ds', p', supply)
  {
    forall e | 0 <= e < |ds'|
      ensures ds'[e] == (if e in p0 && e !in p' then ds0[e].(val := Supplied(supply, e)) else ds0[e])
    {
      if e == d {
        assert ds[d] == ds0[d];
      }
    }
  }

  /** The argument of `__getitem__`: an integer, or a slice `start:stop:step`. */
  datatype Index = At(i: int) | Range(start: Option<int>, stop: Option<int>, step: Option<int>)

  class Builder {
    var counter: nat              // _equation_counter
    var vars: seq<Variable>       // every Variable object, by creation
    var inputs: seq<nat>          // _input_list
    var equations: seq<nat>       // _equation_list
    var outputs: seq<nat>         // _output_list
    var names: set<string>        // _name_set
    var defers: seq<DeferCell>    // every Defer object, by creation
    var pending: set<nat>         // _unevaluated_defer_set
    var ribbon: bool              // _ALLOW_RIBBON_LOGIC_OPERATIONS
    ghost var owner: map<string, nat>  // which live variable holds each registered name

    /** A variable of the current generation: built since the last reset. */
    ghost predicate IsLive(i: nat) reads this`inputs, this`equations {
      i in inputs || i in equations
    }

    ghost predicate ListsOk() reads this {
      && (forall k :: 0 <= k < |inputs| ==> inputs[k] < |vars| && vars[inputs[k]].node.Input?)
      && (forall k :: 0 <= k < |equations| ==> equations[k] < |vars| && !vars[equations[k]].node.Input?)
      && (forall k :: 0 <= k < |outputs| ==> outputs[k] < |vars|)
      && NoDup(inputs) && NoDup(equations)
    }

    /** The name set holds exactly the names of the live variables, one owner each. */
    ghost predicate RegistryOk() reads this {
      && owner.Keys == names
      && (forall s :: s in owner ==> IsLive(owner[s]) && owner[s] < |vars| && vars[owner[s]].name == s)
      && (forall i: nat :: IsLive(i) ==> i < |vars| && vars[i].name in owner && owner[vars[i].name] == i)
    }

    /** A pending Defer is unresolved; a resolved one stands for an existing variable. */
    ghost predicate DefersOk() reads this {
      && (forall d :: d in pending ==> d < |defers| && defers[d].val.None?)
      && (forall d :: 0 <= d < |defers| && defers[d].val.Some? ==> defers[d].val.value < |vars|)
    }

    ghost predicate Valid() reads this {
      ListsOk() && RegistryOk() && AllShaped(vars, defers) && DefersOk()
    }

    ghost predicate RefOk(x: Ref) reads this`vars, this`defers {
      RefOkAt(defers, |vars|, x)
    }

    /** `x.bus_size`. For a Defer it is the declared width: reading it never forces. */
    function BusSize(x: Ref): int reads this`vars, this`defers
      requires RefOk(x)
    {
      RefSize(vars, defers, x)
    }

    /** The operand's name when it was chosen by hand; a Defer reads as auto-named. */
    ghost function HandName(x: Ref): Option<string> reads this`vars, this`defers
      requires RefOk(x)
    {
      if x.Var? && !vars[x.idx].autogenName then Some(vars[x.idx].name) else None
    }

    // ---- what each operation leaves unchanged ----

    twostate predicate NamesKept() reads this {
      vars == old(vars) && names == old(names) && owner == old(owner)
    }

    twostate predicate ListsKept() reads this {
      inputs == old(inputs) && equations == old(equations) && outputs == old(outputs)
    }

    twostate predicate DefersKept() reads this {
      defers == old(defers) && pending == old(pending)
    }

    twostate predicate OthersKept() reads this {
      ListsKept() && DefersKept() && ribbon == old(ribbon)
    }

    twostate predicate GraphKept() reads this {
      NamesKept() && OthersKept()
    }

    twostate predicate Unchanged() reads this {
      GraphKept() && counter == old(counter)
    }

    /** `v` joined the arena with its name registered. */
    twostate predicate Registered(v: Variable) reads this {
      && vars == old(vars) + [v]
      && names == old(names) + {v.name}
      && owner == old(owner)[v.name := |old(vars)|]
    }

    twostate predicate EquationAppended(v: Variable) reads this {
      && Registered(v)
      && equations == old(equations) + [|old(vars)|]
      && inputs == old(inputs) && outputs == old(outputs)
      && DefersKept() && ribbon == old(ribbon)
    }

    /** EquationVariable.__init__: the loop for a free `_l_<n>` runs first and
        consumes counter values; then a negative width fails the assertion of
        Variable.__init__; otherwise the variable is registered and appended. */
    twostate predicate EquationAdded(new r: Result<nat>, busSize: int, node: Node) reads this {
      && FirstFreeLName(old(counter), counter, old(names))
      && (busSize < 0 ==> r == Err(NegativeBusSize) && GraphKept())
      && (busSize >= 0 ==>
            r == Ok(|old(vars)|) && EquationAppended(Variable(LName(counter - 1), busSize as nat, true, node)))
    }

    /** A Slice or Select: an equation of width `busSize` that then tries the
        cosmetic name `wanted`, as an auto-generated name. */
    twostate predicate DerivedAdded(new r: Result<nat>, busSize: nat, node: Node, wanted: Option<string>) reads this {
      && FirstFreeLName(old(counter), counter, old(names))
      && r == Ok(|old(vars)|)
      && EquationAppended(Variable(CosmeticName(LName(counter - 1), wanted, old(names)), busSize, true, node))
    }

    /** Slice(i1, i2, x) where `w` and `hand` are the width and hand-chosen name of x. */
    twostate predicate SliceDone(new r: Result<nat>, i1: int, i2: int, x: Ref, w: int, hand: Option<string>) reads this {
      && (!(0 <= i1 < i2 <= w) ==> r == Err(IndexError) && Unchanged())
      && (0 <= i1 < i2 <= w ==>
            var wanted := if hand.Some? && !Contains(hand.value, "_slc_")
                          then Some(SliceName(hand.value, i1, i2 - 1)) else None;
            DerivedAdded(r, (i2 - i1) as nat, Slice(i1, i2 - 1, x), wanted))
    }

    /** Select(i, x) where `w` and `hand` are the width and hand-chosen name of x. */
    twostate predicate SelectDone(new r: Result<nat>, i: int, x: Ref, w: int, hand: Option<string>) reads this {
      && (!(0 <= i < w) ==> r == Err(IndexError) && Unchanged())
      && (0 <= i < w ==>
            var wanted := if hand.Some? then Some(SelectName(hand.value, i)) else None;
            DerivedAdded(r, 1, Select(i, x), wanted))
    }

    twostate predicate Renamed(v: nat, newName: string, autogen: bool) reads this {
      && v < |old(vars)|
      && vars == old(vars)[v := old(vars)[v].(name := newName, autogenName := autogen)]
      && names == old(names) - {old(vars)[v].name} + {newName}
      && owner == (old(owner) - {old(vars)[v].name})[newName := v]
    }

    // ---- naming registry ----

    /** `v.rename(newName)` cannot corrupt the name set: `v` is live, or its name is
        not registered at all (then `set.remove` raises), or the rename stops
        before removing anything (same name, or a taken new name). */
    ghost predicate RenameSafe(v: nat, newName: string) reads this`vars, this`names, this`inputs, this`equations
      requires v < |vars|
    {
      IsLive(v) || vars[v].name !in names || vars[v].name == newName || newName in names
    }

    /** What `v.rename(newName)` returns or raises. */
    ghost function RenameOutcome(v: nat, newName: string): Outcome
      reads this`vars, this`names, this`inputs, this`equations
      requires v < |vars|
    {
      if vars[v].name == newName then Pass
      else if newName in names then Fail(NameTaken)
      else if !IsLive(v) then Fail(NameNotRegistered)
      else Pass
    }

    /** Whether `v.rename(newName)` changes anything. */
    ghost predicate RenameMoves(v: nat, newName: string) reads this`vars, this`names, this`inputs, this`equations
      requires v < |vars|
    {
      vars[v].name != newName && newName !in names && IsLive(v)
    }

    /** The module's initial state. */
    constructor ()
      ensures Valid()
      ensures counter == 0 && vars == [] && inputs == [] && equations == [] && outputs == []
      ensures names == {} && defers == [] && pending == {} && !ribbon
    {
      counter := 0;
      vars := [];
      inputs := [];
      equations := [];
      outputs := [];
      names := {};
      defers := [];
      pending := {};
      ribbon := false;
      owner := map[];
    }

    method AllowRibbonLogicOperations(enable: bool)
      requires Valid()
      modifies this`ribbon
      ensures Valid() && ribbon == enable
    {
      ribbon := enable;
    }

    /** get_and_increment_equation_counter: the old value; the counter only grows. */
    method NextCounter() returns (n: nat)
      modifies this`counter
      ensures n == old(counter) && counter == old(counter) + 1
    {
      n := counter;
      counter := counter + 1;
    }

    /** The loop of EquationVariable.__init__: the first `_l_<n>` not in the name set. */
    method FreshEquationName() returns (name: string)
      modifies this`counter
      ensures FirstFreeLName(old(counter), counter, names) && name == LName(counter - 1)
    {
      var n := NextCounter();
      name := LName(n);
      while name in names
        invariant old(counter) <= n && counter == n + 1 && name == LName(n)
        invariant forall m :: old(counter) <= m < n ==> LName(m) in names
        decreases TakenFrom(names, n)
      {
        TakenShrinks(names, n);
        n := NextCounter();
        name := LName(n);
      }
    }

    /** Variable.__init__ with the list append of its subclass: the name enters
        the name set and the variable its list (`_input_list` for an Input). */
    method Register(v: Variable) returns (id: nat)
      requires Valid() && v.name !in names
      requires ShapedNode(vars, defers, |vars|, v.busSize, v.node)
      modifies this`vars, this`names, this`owner, this`inputs, this`equations
      ensures Valid()
      ensures id == |old(vars)| && Registered(v)
      ensures v.node.Input? ==> inputs == old(inputs) + [id] && equations == old(equations)
      ensures !v.node.Input? ==> equations == old(equations) + [id] && inputs == old(inputs)
      ensures outputs == old(outputs) && DefersKept() && ribbon == old(ribbon) && counter == old(counter)
    {
      id := |vars|;
      vars := vars + [v];
      names := names + {v.name};
      owner := owner[v.name := id];
      if v.node.Input? {
        inputs := inputs + [id];
      } else {
        equations := equations + [id];
      }
      ShapedNodeKept(old(vars), defers, vars, defers, id, v.busSize, v.node);
      AllShapedKept(old(vars), defers, vars, defers);
      RegisterKeepsLists(v);
      RegisterKeepsRegistry(v);
    }

    twostate lemma RegisterKeepsLists(v: Variable)
      requires old(ListsOk()) && vars == old(vars) + [v] && outputs == old(outputs)
      requires v.node.Input? ==> inputs == old(inputs) + [|old(vars)|] && equations == old(equations)
      requires !v.node.Input? ==> equations == old(equations) + [|old(vars)|] && inputs == old(inputs)
      ensures ListsOk()
    {
      assert forall k :: 0 <= k < |old(inputs)| ==> old(inputs)[k] < |old(vars)|;
      assert forall k :: 0 <= k < |old(equations)| ==> old(equations)[k] < |old(vars)|;
    }

    twostate lemma RegisterKeepsRegistry(v: Variable)
      requires old(RegistryOk()) && v.name !in old(names)
      requires Registered(v)
      requires v.node.Input? ==> inputs == old(inputs) + [|old(vars)|] && equations == old(equations)
      requires !v.node.Input? ==> equations == old(equations) + [|old(vars)|] && inputs == old(inputs)
      ensures RegistryOk()
    {
      var id := |old(vars)|;
      assert IsLive(id);
      forall s | s in owner
        ensures IsLive(owner[s]) && owner[s] < |vars| && vars[owner[s]].name == s
      {
        if s != v.name {
          assert s in old(owner) && owner[s] == old(owner)[s];
          assert old(IsLive(owner[s]));
        }
      }
      forall i: nat | IsLive(i)
        ensures i < |vars| && vars[i].name in owner && owner[vars[i].name] == i
      {
        if i != id {
          assert old(IsLive(i));
          assert vars[i] == old(vars)[i];
        }
      }
    }

    /** Registers a new equation variable; its node was checked by the caller. */
    method NewEquation(busSize: int, node: Node) returns (r: Result<nat>)
      requires Valid() && !node.Input?
      requires busSize >= 0 ==> ShapedNode(vars, defers, |vars|, busSize as nat, node)
      modifies this`counter, this`vars, this`names, this`owner, this`inputs, this`equations
      ensures Valid()
      ensures EquationAdded(r, busSize, node)
    {
      var name := FreshEquationName();
      if busSize < 0 {
        return Err(NegativeBusSize);
      }
      var id := Register(Variable(name, busSize as nat, true, node));
      r := Ok(id);
    }

    /** Variable.rename: a taken name raises, the same name is a no-op, otherwise
        the old name leaves the set, the new one enters it and the flag is set. */
    method Rename(v: nat, newName: string, autogen: bool) returns (r: Outcome)
      requires Valid() && v < |vars| && RenameSafe(v, newName)
      modifies this`vars, this`names, this`owner
      ensures Valid()
      ensures r == old(RenameOutcome(v, newName))
      ensures old(RenameMoves(v, newName)) ==> Renamed(v, newName, autogen) && OthersKept() && counter == old(counter)
      ensures !old(RenameMoves(v, newName)) ==> Unchanged()
    {
      if vars[v].name == newName {
        r := Pass;
      } else if newName in names {
        r := Fail(NameTaken);
      } else if vars[v].name !in names {
        r := Fail(NameNotRegistered);
      } else {
        var oldName := vars[v].name;
        ghost var before := vars;
        names := names - {oldName} + {newName};
        owner := (owner - {oldName})[newName := v];
        vars := vars[v := vars[v].(name := newName, autogenName := autogen)];
        AllShapedKept(before, defers, vars, defers);
        RenameKeepsRegistry(v, newName, autogen);
        r := Pass;
      }
    }

    twostate lemma RenameKeepsRegistry(new v: nat, new newName: string, new autogen: bool)
      requires old(RegistryOk()) && Renamed(v, newName, autogen)
      requires old(IsLive(v)) && newName !in old(names)
      requires inputs == old(inputs) && equations == old(equations)
      ensures RegistryOk()
    {
      var oldName := old(vars)[v].name;
      assert old(owner)[oldName] == v;
      forall s | s in owner
        ensures IsLive(owner[s]) && owner[s] < |vars| && vars[owner[s]].name == s
      {
        if s != newName {
          assert s in old(owner) && owner[s] == old(owner)[s] && owner[s] != v;
        }
      }
      forall i: nat | IsLive(i)
        ensures i < |vars| && vars[i].name in owner && owner[vars[i].name] == i
      {
        if i != v {
          assert old(IsLive(i)) && vars[i] == old(vars)[i];
          assert old(owner)[vars[i].name] == i;
        }
      }
    }

    /** Variable.try_rename: never lets an auto-generated name replace a
        hand-chosen one; a collision answers false instead of raising. */
    method TryRename(v: nat, newName: string, autogen: bool) returns (r: Result<bool>)
      requires Valid() && v < |vars| && ((!vars[v].autogenName && autogen) || RenameSafe(v, newName))
      modifies this`vars, this`names, this`owner
      ensures Valid()
      ensures old(!vars[v].autogenName && autogen) ==> r == Ok(false) && Unchanged()
      ensures old(vars[v].autogenName || !autogen) ==>
        && r == CatchValueError(old(RenameOutcome(v, newName)))
        && (old(RenameMoves(v, newName)) ==> Renamed(v, newName, autogen) && OthersKept() && counter == old(counter))
        && (!old(RenameMoves(v, newName)) ==> Unchanged())
    {
      if !vars[v].autogenName && autogen {
        return Ok(false);
      }
      var o := Rename(v, newName, autogen);
      r := CatchValueError(o);
    }

    /** The name `__assignpost__` tries for `lhs`: `lhs`, or `_lhs_<counter>` if taken. */
    ghost function AssignPostName(lhs: string): string reads this`names, this`counter
    {
      if lhs in names then FallbackName(lhs, counter) else lhs
    }

    /** Variable.__assignpost__, the hook called after `lhs = <expression>`: only
        an auto-named variable takes the source-level name. */
    method AssignPost(v: nat, lhsName: Option<string>) returns (r: Outcome)
      requires Valid() && v < |vars|
      requires vars[v].autogenName && lhsName.Some? ==> RenameSafe(v, AssignPostName(lhsName.value))
      modifies this`counter, this`vars, this`names, this`owner
      ensures Valid()
      ensures !old(vars[v].autogenName && lhsName.Some?) ==> r == Pass && Unchanged()
      ensures old(vars[v].autogenName && lhsName.Some?) ==>
        var target := old(AssignPostName(lhsName.value));
        && counter == old(counter) + (if lhsName.value in old(names) then 1 else 0)
        && r == (if old(RenameOutcome(v, target)) == Fail(NameNotRegistered) then Fail(NameNotRegistered) else Pass)
        && (old(RenameMoves(v, target)) ==> Renamed(v, target, false) && OthersKept())
        && (!old(RenameMoves(v, target)) ==> GraphKept())
    {
      if !vars[v].autogenName || lhsName.None? {
        return Pass;
      }
      var newName := PickAssignName(lhsName.value);
      var t := TryRename(v, newName, false);
      r := if t.Err? then Fail(t.error) else Pass;
    }

    /** The name `__assignpost__` tries: `lhs`, or `_lhs_<n>` with a fresh counter value when taken. */
    method PickAssignName(lhs: string) returns (name: string)
      modifies this`counter
      ensures name == old(AssignPostName(lhs))
      ensures counter == old(counter) + (if lhs in names then 1 else 0)
    {
      name := lhs;
      if name in names {
        var n := NextCounter();
        name := FallbackName(lhs, n);
      }
    }

    /** Variable.set_as_output: the hard rename comes first and may raise;
        only then is the variable appended to the outputs. */
    method SetAsOutput(v: nat, name: Option<string>) returns (r: Outcome)
      requires Valid() && v < |vars| && (name.Some? ==> RenameSafe(v, name.value))
      modifies this`vars, this`names, this`owner, this`outputs
      ensures Valid()
      ensures counter == old(counter) && DefersKept() && ribbon == old(ribbon)
      ensures name.Some? ==> r == old(RenameOutcome(v, name.value))
      ensures name.None? ==> r == Pass
      ensures r.Fail? ==> Unchanged()
      ensures r.Pass? ==>
        && outputs == old(outputs) + [v] && inputs == old(inputs) && equations == old(equations)
        && (name.Some? && old(RenameMoves(v, name.value)) ==> Renamed(v, name.value, false))
        && (!(name.Some? && old(RenameMoves(v, name.value))) ==> NamesKept())
    {
      if name.Some? {
        r := Rename(v, name.value, false);
        if r.Fail? {
          return;
        }
      }
      AppendOutput(v);
      r := Pass;
    }

    /** `_output_list.append(self)`. */
    method AppendOutput(v: nat)
      requires Valid() && v < |vars|
      modifies this`outputs
      ensures Valid() && outputs == old(outputs) + [v]
    {
      outputs := outputs + [v];
    }

    // ---- node constructors ----

    /** Input(bus_size, name): an unnamed input takes `_input_<n>`; a taken name,
        explicit or automatic, raises without retrying. */
    method AddInput(busSize: int, name: Option<string>) returns (r: Result<nat>)
      requires Valid()
      modifies this`counter, this`vars, this`names, this`owner, this`inputs, this`equations
      ensures Valid()
      ensures counter == old(counter) + (if name.None? then 1 else 0)
      ensures var chosen := if name.Some? then name.value else InputName(old(counter));
        && (chosen in old(names) ==> r == Err(NameTaken) && GraphKept())
        && (chosen !in old(names) && busSize < 0 ==> r == Err(NegativeBusSize) && GraphKept())
        && (chosen !in old(names) && busSize >= 0 ==>
              && r == Ok(|old(vars)|)
              && Registered(Variable(chosen, busSize as nat, name.None?, Input))
              && inputs == old(inputs) + [|old(vars)|] && equations == old(equations) && outputs == old(outputs)
              && DefersKept() && ribbon == old(ribbon))
    {
      var chosen: string;
      if name.None? {
        var n := NextCounter();
        chosen := InputName(n);
      } else {
        chosen := name.value;
      }
      if chosen in names {
        return Err(NameTaken);
      }
      if busSize < 0 {
        return Err(NegativeBusSize);
      }
      var id := Register(Variable(chosen, busSize as nat, name.None?, Input));
      r := Ok(id);
    }

    /** Constant(value): non-empty over 0, 1, t and f; as wide as the string. */
    method AddConstant(value: string) returns (r: Result<nat>)
      requires Valid()
      modifies this`counter, this`vars, this`names, this`owner, this`inputs, this`equations
      ensures Valid()
      ensures !(value != [] && IsConstantBits(value)) ==> r == Err(ShapeError) && Unchanged()
      ensures value != [] && IsConstantBits(value) ==> EquationAdded(r, |value|, Constant(value))
    {
      if |value| == 0 {
        return Err(ShapeError);
      }
      var ok := CheckConstantBits(value);
      if !ok {
        return Err(ShapeError);
      }
      r := NewEquation(|value|, Constant(value));
    }

    /** Not and Reg: one wire, unless ribbon logic is on; as wide as the operand. */
    method AddUnop(op: UnopName, x: Ref) returns (r: Result<nat>)
      requires Valid() && RefOk(x)
      modifies this`counter, this`vars, this`names, this`owner, this`inputs, this`equations
      ensures Valid()
      ensures !old(ribbon) && old(BusSize(x)) != 1 ==> r == Err(ShapeError) && Unchanged()
      ensures old(ribbon) || old(BusSize(x)) == 1 ==> EquationAdded(r, old(BusSize(x)), Unop(op, x))
    {
      if !ribbon && BusSize(x) != 1 {
        return Err(ShapeError);
      }
      r := NewEquation(BusSize(x), Unop(op, x));
    }

    /** And, Nand, Or and Xor: operands of equal width, one wire unless ribbon logic is on. */
    method AddBinop(op: BinopName, lhs: Ref, rhs: Ref) returns (r: Result<nat>)
      requires Valid() && RefOk(lhs) && RefOk(rhs)
      modifies this`counter, this`vars, this`names, this`owner, this`inputs, this`equations
      ensures Valid()
      ensures old(BusSize(lhs) != BusSize(rhs) || (!ribbon && BusSize(lhs) != 1)) ==>
        r == Err(ShapeError) && Unchanged()
      ensures old(BusSize(lhs) == BusSize(rhs) && (ribbon || BusSize(lhs) == 1)) ==>
        EquationAdded(r, old(BusSize(lhs)), Binop(op, lhs, rhs))
    {
      if BusSize(lhs) != BusSize(rhs) {
        return Err(ShapeError);
      }
      if !ribbon && BusSize(lhs) != 1 {
        return Err(ShapeError);
      }
      r := NewEquation(BusSize(lhs), Binop(op, lhs, rhs));
    }

    /** Mux(choice, a, b): a one-wire choice between two buses of equal width. */
    method AddMux(choice: Ref, a: Ref, b: Ref) returns (r: Result<nat>)
      requires Valid() && RefOk(choice) && RefOk(a) && RefOk(b)
      modifies this`counter, this`vars, this`names, this`owner, this`inputs, this`equations
      ensures Valid()
      ensures old(BusSize(choice) != 1 || BusSize(a) != BusSize(b)) ==> r == Err(ShapeError) && Unchanged()
      ensures old(BusSize(choice) == 1 && BusSize(a) == BusSize(b)) ==>
        EquationAdded(r, old(BusSize(a)), Mux(choice, a, b))
    {
      if BusSize(choice) != 1 {
        return Err(ShapeError);
      }
      if BusSize(a) != BusSize(b) {
        return Err(ShapeError);
      }
      r := NewEquation(BusSize(a), Mux(choice, a, b));
    }

    /** ROM(addr_size, word_size, read_addr): the address bus is `addr_size` wide;
        the word is `word_size` wide. */
    method AddRom(addrSize: int, wordSize: int, readAddr: Ref) returns (r: Result<nat>)
      requires Valid() && RefOk(readAddr)
      modifies this`counter, this`vars, this`names, this`owner, this`inputs, this`equations
      ensures Valid()
      ensures old(BusSize(readAddr)) != addrSize ==> r == Err(ShapeError) && Unchanged()
      ensures old(BusSize(readAddr)) == addrSize ==> EquationAdded(r, wordSize, Rom(addrSize, wordSize, readAddr))
    {
      if BusSize(readAddr) != addrSize {
        return Err(ShapeError);
      }
      r := NewEquation(wordSize, Rom(addrSize, wordSize, readAddr));
    }

    /** RAM(...): both addresses `addr_size` wide, a one-wire write enable, write
        data `word_size` wide; nothing is registered when a check fails. */
    method AddRam(addrSize: int, wordSize: int, readAddr: Ref, writeEnable: Ref, writeAddr: Ref, writeData: Ref)
      returns (r: Result<nat>)
      requires Valid() && RefOk(readAddr) && RefOk(writeEnable) && RefOk(writeAddr) && RefOk(writeData)
      modifies this`counter, this`vars, this`names, this`owner, this`inputs, this`equations
      ensures Valid()
      ensures old(BusSize(readAddr) != addrSize || BusSize(writeEnable) != 1
                  || BusSize(writeAddr) != addrSize || BusSize(writeData) != wordSize) ==>
        r == Err(ShapeError) && Unchanged()
      ensures old(BusSize(readAddr) == addrSize && BusSize(writeEnable) == 1
                  && BusSize(writeAddr) == addrSize && BusSize(writeData) == wordSize) ==>
        EquationAdded(r, wordSize, Ram(addrSize, wordSize, readAddr, writeEnable, writeAddr, writeData))
    {
      if BusSize(readAddr) != addrSize {
        return Err(ShapeError);
      }
      if BusSize(writeEnable) != 1 {
        return Err(ShapeError);
      }
      if BusSize(writeAddr) != addrSize {
        return Err(ShapeError);
      }
      if BusSize(writeData) != wordSize {
        return Err(ShapeError);
      }
      r := NewEquation(wordSize, Ram(addrSize, wordSize, readAddr, writeEnable, writeAddr, writeData));
    }

    /** Concat(lhs, rhs): as wide as both operands together. */
    method AddConcat(lhs: Ref, rhs: Ref) returns (r: Result<nat>)
      requires Valid() && RefOk(lhs) && RefOk(rhs)
      modifies this`counter, this`vars, this`names, this`owner, this`inputs, this`equations
      ensures Valid()
      ensures EquationAdded(r, old(BusSize(lhs) + BusSize(rhs)), Concat(lhs, rhs))
    {
      r := NewEquation(BusSize(lhs) + BusSize(rhs), Concat(lhs, rhs));
    }

    /** The end of Slice.__init__ and Select.__init__: a new equation that then
        tries a cosmetic name, which never displaces a hand-chosen one. The
        variable is registered directly under the name the rename would leave;
        CosmeticAfterRegister shows the two orders give the same state. */
    method AddDerived(busSize: nat, node: Node, wanted: Option<string>) returns (r: Result<nat>)
      requires Valid() && !node.Input? && ShapedNode(vars, defers, |vars|, busSize, node)
      modifies this`counter, this`vars, this`names, this`owner, this`inputs, this`equations
      ensures Valid()
      ensures FirstFreeLName(old(counter), counter, old(names))
      ensures r == Ok(|old(vars)|)
      ensures vars == old(vars) + [Variable(CosmeticName(LName(counter - 1), wanted, old(names)), busSize, true, node)]
      ensures names == old(names) + {CosmeticName(LName(counter - 1), wanted, old(names))}
      ensures owner == old(owner)[CosmeticName(LName(counter - 1), wanted, old(names)) := |old(vars)|]
      ensures equations == old(equations) + [|old(vars)|]
      ensures inputs == old(inputs) && outputs == old(outputs)
      ensures DefersKept() && ribbon == old(ribbon)
    {
      var base := FreshEquationName();
      var name := if wanted.Some? && wanted.value != base && wanted.value !in names then wanted.value else base;
      var id := Register(Variable(name, busSize, true, node));
      r := Ok(id);
    }

    /** Slice(i1, i2, x): bits i1 .. i2-1 of x, stored and printed with the
        inclusive end i2-1; a slice of a hand-named bus tries `_<x>_slc_<i1>_<i2-1>`. */
    method AddSlice(i1: int, i2: int, x: Ref) returns (r: Result<nat>)
      requires Valid() && RefOk(x)
      modifies this`counter, this`vars, this`names, this`owner, this`inputs, this`equations
      ensures Valid()
      ensures SliceDone(r, i1, i2, x, old(BusSize(x)), old(HandName(x)))
    {
      if !(0 <= i1 < i2 <= BusSize(x)) {
        return Err(IndexError);
      }
      var wanted := if x.Var? && !vars[x.idx].autogenName && !Contains(vars[x.idx].name, "_slc_")
                    then Some(SliceName(vars[x.idx].name, i1, i2 - 1)) else None;
      r := AddDerived(i2 - i1, Slice(i1, i2 - 1, x), wanted);
    }

    /** Select(i, x): bit i of x; a select of a hand-named bus tries `_<x>_sel_<i>`. */
    method AddSelect(i: int, x: Ref) returns (r: Result<nat>)
      requires Valid() && RefOk(x)
      modifies this`counter, this`vars, this`names, this`owner, this`inputs, this`equations
      ensures Valid()
      ensures SelectDone(r, i, x, old(BusSize(x)), old(HandName(x)))
    {
      if !(0 <= i < BusSize(x)) {
        return Err(IndexError);
      }
      var wanted := if x.Var? && !vars[x.idx].autogenName then Some(SelectName(vars[x.idx].name, i)) else None;
      r := AddDerived(1, Select(i, x), wanted);
    }

    /** Variable.__getitem__: `x[i]` selects; `x[a:b]` slices from 0 and up to
        the bus width by default, and refuses a step other than 1. */
    method GetItem(x: nat, index: Index) returns (r: Result<nat>)
      requires Valid() && x < |vars|
      modifies this`counter, this`vars, this`names, this`owner, this`inputs, this`equations
      ensures Valid()
      ensures index.At? ==> SelectDone(r, index.i, Var(x), old(vars[x].busSize), old(HandName(Var(x))))
      ensures index.Range? && index.step.Some? && index.step.value != 1 ==> r == Err(StepError) && Unchanged()
      ensures index.Range? && !(index.step.Some? && index.step.value != 1) ==>
        var start := if index.start.Some? then index.start.value else 0;
        var stop := if index.stop.Some? then index.stop.value else old(vars[x].busSize);
        SliceDone(r, start, stop, Var(x), old(vars[x].busSize), old(HandName(Var(x))))
    {
      match index
      case At(i) =>
        r := AddSelect(i, Var(x));
      case Range(start, stop, step) =>
        if step.Some? && step.value != 1 {
          return Err(StepError);
        }
        var lo := if start.Some? then start.value else 0;
        var hi := if stop.Some? then stop.value else vars[x].busSize;
        r := AddSlice(lo, hi, Var(x));
    }

    // ---- deferred references ----

    /** Defer(bus_size, supplier): a new pending placeholder of a declared width. */
    method NewDefer(busSize: int) returns (d: nat)
      requires Valid()
      modifies this`defers, this`pending
      ensures Valid()
      ensures d == |old(defers)| && defers == old(defers) + [DeferCell(busSize, None)]
      ensures pending == old(pending) + {d}
      ensures NamesKept() && ListsKept() && counter == old(counter) && ribbon == old(ribbon)
    {
      d := |defers|;
      ghost var before := defers;
      defers := defers + [DeferCell(busSize, None)];
      pending := pending + {d};
      AllShapedKept(vars, before, vars, defers);
    }

    /** Defer.get_val, where `supplied` is what the supplier returns (None: it
        raises). A resolved Defer answers from its cache without calling the
        supplier. Otherwise it leaves the pending set first, then caches the
        supplier's result, then checks the width. */
    method GetVal(d: nat, supplied: Option<nat>) returns (r: Result<nat>)
      requires Valid() && d < |defers| && (supplied.Some? ==> supplied.value < |vars|)
      modifies this`defers, this`pending
      ensures Valid()
      ensures NamesKept() && ListsKept() && counter == old(counter) && ribbon == old(ribbon)
      ensures |defers| == |old(defers)| && forall e :: 0 <= e < |defers| && e != d ==> defers[e] == old(defers[e])
      ensures old(defers[d].val.Some?) ==> r == Ok(old(defers[d].val.value)) && DefersKept()
      ensures old(defers[d].val.None?) && d !in old(pending) ==> r == Err(NotPending) && DefersKept()
      ensures old(defers[d].val.None?) && d in old(pending) ==>
        && pending == old(pending) - {d}
        && defers[d] == old(defers[d]).(val := supplied)
        && r == (if supplied.None? then Err(SupplierFailed)
                 else if vars[supplied.value].busSize == defers[d].busSize then Ok(supplied.value)
                 else Err(DeferBusSizeMismatch))
    {
      if defers[d].val.None? {
        if d !in pending {
          return Err(NotPending);
        }
        pending := pending - {d};
        ghost var before := defers;
        defers := defers[d := defers[d].(val := supplied)];
        AllShapedKept(vars, before, vars, defers);
        if supplied.None? {
          return Err(SupplierFailed);
        }
        if vars[supplied.value].busSize != defers[d].busSize {
          return Err(DeferBusSizeMismatch);
        }
      }
      r := Ok(defers[d].val.value);
    }

    /** Two reads of a Defer: once the first succeeds, the second answers the
        same variable from the cache, whatever the supplier would return now.
        The width check runs only on the read that fills the cache, so after a
        mismatch the second read answers the wrong-width variable. */
    method GetValTwice(d: nat, first: Option<nat>, second: Option<nat>) returns (r1: Result<nat>, r2: Result<nat>)
      requires Valid() && d < |defers|
      requires (first.Some? ==> first.value < |vars|) && (second.Some? ==> second.value < |vars|)
      modifies this`defers, this`pending
      ensures Valid() && |defers| == |old(defers)|
      ensures r1.Ok? ==> r2 == r1 && defers == old(defers)[d := defers[d]] && pending == old(pending) - {d}
      ensures r1 == Err(SupplierFailed) ==> r2 == Err(NotPending)
      ensures r1 == Err(DeferBusSizeMismatch) ==> first.Some? && r2 == Ok(first.value)
    {
      r1 := GetVal(d, first);
      r2 := GetVal(d, second);
    }

    // ---- serializer ----

    predicate Resolved(o: Ref) reads this {
      o.Var? || (o.deferId < |defers| && defers[o.deferId].val.Some?)
    }

    /** `o.name`. An unresolved Defer, whose name the source cannot read (KeyError),
        gets the placeholder `""`; Netlist prints text only when every operand resolves. */
    function RefName(o: Ref): string reads this
      requires Valid() && RefOk(o)
    {
      match o
      case Var(j) => vars[j].name
      case Def(d) => if defers[d].val.Some? then vars[defers[d].val.value].name else ""
    }

    function RefNames(os: seq<Ref>): (ns: seq<string>) reads this
      requires Valid() && forall k :: 0 <= k < |os| ==> RefOk(os[k])
      ensures |ns| == |os| && forall k :: 0 <= k < |os| ==> ns[k] == RefName(os[k])
    {
      if os == [] then [] else [RefName(os[0])] + RefNames(os[1..])
    }

    /** `str(v)` of an equation variable. */
    function Line(i: nat): (r: string) reads this
      requires Valid() && i < |vars|
      ensures vars[i].node.Input? ==> r == vars[i].name
      ensures !vars[i].node.Input? ==>
        r == vars[i].name + " = " + Join(Head(vars[i].node) + RefNames(Operands(vars[i].node)), " ")
    {
      var v := vars[i];
      ShapedOperandsExist(vars, defers, i, v.busSize, v.node);
      var ops := RefNames(Operands(v.node));
      if v.node.Input? then EquationLine(v.name, v.node, ops)
      else EquationLineWords(v.name, v.node, ops); EquationLine(v.name, v.node, ops)
    }

    /** `"".join(str(x) + "\n" for x in ids)`. */
    function Lines(ids: seq<nat>): string reads this
      requires Valid() && forall k :: 0 <= k < |ids| ==> ids[k] < |vars|
    {
      if ids == [] then "" else Line(ids[0]) + "\n" + Lines(ids[1..])
    }

    /** The `IN` section of two lists is the section of the first, then of the second. */
    lemma {:induction false} LinesConcat(a: seq<nat>, b: seq<nat>)
      requires Valid()
      requires forall k :: 0 <= k < |a| ==> a[k] < |vars|
      requires forall k :: 0 <= k < |b| ==> b[k] < |vars|
      ensures Lines(a + b) == Lines(a) + Lines(b)
    {
      if a == [] {
        assert a + b == b;
      } else {
        assert (a + b)[0] == a[0] && (a + b)[1..] == a[1..] + b;
        LinesConcat(a[1..], b);
      }
    }

    /** One more equation adds exactly its own line at the end. */
    lemma LinesAppendOne(ids: seq<nat>, i: nat)
      requires Valid() && i < |vars|
      requires forall k :: 0 <= k < |ids| ==> ids[k] < |vars|
      ensures Lines(ids + [i]) == Lines(ids) + Line(i) + "\n"
    {
      LinesConcat(ids, [i]);
      assert [i][1..] == [];
    }

    /** The names of the listed variables, in list order. */
    function NamesOf(ids: seq<nat>): seq<string> reads this
      requires forall k :: 0 <= k < |ids| ==> ids[k] < |vars|
    {
      seq(|ids|, k requires 0 <= k < |ids| && ids[k] < |vars| reads this => vars[ids[k]].name)
    }

    /** Variable.get_full_name of each listed variable, for the `VAR` section. */
    function FullNamesOf(ids: seq<nat>): seq<string> reads this
      requires forall k :: 0 <= k < |ids| ==> ids[k] < |vars|
    {
      seq(|ids|, k requires 0 <= k < |ids| && ids[k] < |vars| reads this => FullName(vars[ids[k]].name, vars[ids[k]].busSize))
    }

    predicate AllResolved() reads this
      requires Valid()
    {
      forall k :: 0 <= k < |equations| ==> forall o :: o in Operands(vars[equations[k]].node) ==> Resolved(o)
    }

    /** No two entries of the `VAR` section declare the same name: inputs and
        equations are distinct live variables, and live variables own their names. */
    lemma DeclarationsDistinct()
      requires Valid()
      ensures NoDup(NamesOf(inputs + equations))
    {
      var ids := inputs + equations;
      var ns := NamesOf(ids);
      forall p, q | 0 <= p < q < |ns|
        ensures ns[p] != ns[q]
      {
        assert ids[p] != ids[q] by {
          if q < |inputs| {
            assert ids[p] == inputs[p] && ids[q] == inputs[q];
          } else if p >= |inputs| {
            assert ids[p] == equations[p - |inputs|] && ids[q] == equations[q - |inputs|];
          } else {
            assert vars[ids[p]].node.Input? && !vars[ids[q]].node.Input?;
          }
        }
        assert IsLive(ids[p]) && IsLive(ids[q]) by {
          if p < |inputs| { assert ids[p] == inputs[p]; } else { assert ids[p] == equations[p - |inputs|]; }
          if q < |inputs| { assert ids[q] == inputs[q]; } else { assert ids[q] == equations[q - |inputs|]; }
        }
      }
    }

    /** The text get_netlist builds once no Defer is pending. An operand Defer that
        never resolved (its supplier failed earlier) raises KeyError when named. */
    function Netlist(): (r: Result<string>) reads this
      requires Valid() && pending == {}
      ensures r.Ok? <==> AllResolved()
      ensures r.Err? ==> r.error == NotPending
    {
      if !AllResolved() then Err(NotPending)
      else Ok(Section("INPUT", NamesOf(inputs))
              + Section("OUTPUT", NamesOf(outputs))
              + Section("VAR", FullNamesOf(inputs + equations))
              + "IN\n"
              + Lines(equations))
    }

    /** The text opens with the `INPUT` header and ends with the `IN` section. */
    lemma NetlistLayout()
      requires Valid() && pending == {} && AllResolved()
      ensures StartsWith(Netlist().value, "INPUT ")
      ensures exists head :: Netlist().value == head + "IN\n" + Lines(equations)
    {
      var s1 := Section("INPUT", NamesOf(inputs));
      var s2 := Section("OUTPUT", NamesOf(outputs));
      var s3 := Section("VAR", FullNamesOf(inputs + equations));
      StartsWithExtend(s1, "INPUT ", s2);
      StartsWithExtend(s1 + s2, "INPUT ", s3);
      StartsWithExtend(s1 + s2 + s3, "INPUT ", "IN\n");
      StartsWithExtend(s1 + s2 + s3 + "IN\n", "INPUT ", Lines(equations));
      assert Netlist().value == (s1 + s2 + s3) + "IN\n" + Lines(equations);
    }

    /** The supplier of Defer `d` returns a variable of the declared width. */
    ghost predicate SupplyFits(supply: map<nat, nat>, d: nat) reads this {
      d < |defers| && d in supply && supply[d] < |vars| && vars[supply[d]].busSize == defers[d].busSize
    }

    /** get_netlist: force every pending Defer, batch after batch, then format.
        `supply` gives what each supplier returns. Suppliers build nothing here,
        so the first batch is the last. */
    method GetNetlist(supply: map<nat, nat>) returns (r: Result<string>)
      requires Valid() && forall d :: d in supply ==> supply[d] < |vars|
      modifies this`defers, this`pending
      ensures Valid()
      ensures NamesKept() && ListsKept() && counter == old(counter) && ribbon == old(ribbon)
      ensures ForcedFrom(old(defers), old(pending), defers, pending, supply)
      ensures old(forall d :: d in pending ==> SupplyFits(supply, d)) ==> pending == {} && r == Netlist()
      ensures old(exists d :: d in pending && !SupplyFits(supply, d)) ==>
        r.Err? && r.error in {SupplierFailed, DeferBusSizeMismatch}
    {
      while pending != {}
        invariant Valid()
        invariant NamesKept() && ListsKept() && counter == old(counter) && ribbon == old(ribbon)
        invariant ForcedFrom(old(defers), old(pending), defers, pending, supply)
        invariant forall d :: d in old(pending) && d !in pending ==> old(SupplyFits(supply, d))
        decreases pending
      {
        var batch := pending;
        while batch != {}
          invariant Valid()
          invariant NamesKept() && ListsKept() && counter == old(counter) && ribbon == old(ribbon)
          invariant ForcedFrom(old(defers), old(pending), defers, pending, supply)
          invariant forall d :: d in old(pending) && d !in pending ==> old(SupplyFits(supply, d))
          invariant batch == pending
          decreases batch
        {
          var d :| d in batch;
          batch := batch - {d};
          ghost var (ds, p) := (defers, pending);
          var res := GetVal(d, Supplied(supply, d));
          ForcedStep(old(defers), old(pending), ds, p, supply, d, defers, pending);
          if res.Err? {
            assert !old(SupplyFits(supply, d));
            return Err(res.error);
          }
        }
      }
      r := Netlist();
    }

    /** reset: a new generation. The counter, the three lists and the name set
        start over; the pending Defers and the ribbon flag are kept. */
    method Reset()
      requires Valid()
      modifies this`counter, this`inputs, this`equations, this`outputs, this`names, this`owner
      ensures Valid()
      ensures counter == 0 && inputs == [] && equations == [] && outputs == [] && names == {}
      ensures vars == old(vars) && defers == old(defers) && pending == old(pending) && ribbon == old(ribbon)
    {
      counter := 0;
      inputs := [];
      equations := [];
      outputs := [];
      names := {};
      owner := map[];
    }
  }
}

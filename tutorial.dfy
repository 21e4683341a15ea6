/** The tutorial circuits, built call by call in the order the assignment hook
    drives the builder, with the netlists their comments print; and
    StaleSameName, a reset followed by a same-named input. */
module Tutorial {
  import opened Decimal
  import opened Names
  import opened Circuit
  import opened Carotte

  /** The builder is valid, ribbon logic is off, and its state is exactly this. */
  ghost predicate InState(b: Builder, counter: nat, vars: seq<Variable>, inputs: seq<nat>, equations: seq<nat>,
                     outputs: seq<nat>, names: set<string>, defers: seq<DeferCell>, pending: set<nat>)
    reads b
  {
    && b.Valid() && !b.ribbon && b.counter == counter && b.vars == vars
    && b.inputs == inputs && b.equations == equations && b.outputs == outputs
    && b.names == names && b.defers == defers && b.pending == pending
  }

  // ---- tutorial/2_defer.py ----

  const RegO := Variable("o", 1, false, Unop(Reg, Def(0)))
  const NotC := Variable("c", 1, false, Unop(Not, Var(0)))

  /** The two equations as built, before the hook names them. */
  const RegAuto := Variable("_l_0", 1, true, Unop(Reg, Def(0)))
  const NotAuto := Variable("_l_1", 1, true, Unop(Not, Var(0)))

  /** `Reg(Defer(1, lambda: c))`: the Defer is pending and REG takes `_l_0`. */
  method DeferRegisterBuild(b: Builder)
    requires InState(b, 0, [], [], [], [], {}, [], {})
    modifies b
    ensures InState(b, 1, [RegAuto], [], [0], [], {"_l_0"}, [DeferCell(1, None)], {0})
  {
    var d := b.NewDefer(1);
    var o := b.AddUnop(Reg, Def(d));
    FirstCandidateFree(0, b.counter, {});
    assert LName(0) == "_l_0";
  }

  /** `o = ...`: the hook renames `_l_0` to `o`. */
  method DeferRegisterName(b: Builder)
    requires InState(b, 1, [RegAuto], [], [0], [], {"_l_0"}, [DeferCell(1, None)], {0})
    modifies b
    ensures InState(b, 1, [RegO], [], [0], [], {"o"}, [DeferCell(1, None)], {0})
  {
    var _ := b.AssignPost(0, Some("o"));
    assert [RegAuto][0 := RegAuto.(name := "o", autogenName := false)] == [RegO];
    assert {"_l_0"} - {"_l_0"} + {"o"} == {"o"};
  }

  /** `o = Reg(Defer(1, lambda: c))`. */
  method DeferRegister(b: Builder)
    requires InState(b, 0, [], [], [], [], {}, [], {})
    modifies b
    ensures InState(b, 1, [RegO], [], [0], [], {"o"}, [DeferCell(1, None)], {0})
  {
    DeferRegisterBuild(b);
    DeferRegisterName(b);
  }

  /** `~o`: NOT takes `_l_1`. */
  method DeferInvertBuild(b: Builder)
    requires InState(b, 1, [RegO], [], [0], [], {"o"}, [DeferCell(1, None)], {0})
    modifies b
    ensures InState(b, 2, [RegO, NotAuto], [], [0, 1], [], {"o", "_l_1"}, [DeferCell(1, None)], {0})
  {
    var c := b.AddUnop(Not, Var(0));
    FirstCandidateFree(1, b.counter, {"o"});
    assert LName(1) == "_l_1";
  }

  /** `c = ...`: the hook renames `_l_1` to `c`. */
  method DeferInvertName(b: Builder)
    requires InState(b, 2, [RegO, NotAuto], [], [0, 1], [], {"o", "_l_1"}, [DeferCell(1, None)], {0})
    modifies b
    ensures InState(b, 2, [RegO, NotC], [], [0, 1], [], {"o", "c"}, [DeferCell(1, None)], {0})
  {
    var _ := b.AssignPost(1, Some("c"));
    assert [RegO, NotAuto][1 := NotAuto.(name := "c", autogenName := false)] == [RegO, NotC];
    assert {"o", "_l_1"} - {"_l_1"} + {"c"} == {"o", "c"};
  }

  /** `c = ~o`. */
  method DeferInvert(b: Builder)
    requires InState(b, 1, [RegO], [], [0], [], {"o"}, [DeferCell(1, None)], {0})
    modifies b
    ensures InState(b, 2, [RegO, NotC], [], [0, 1], [], {"o", "c"}, [DeferCell(1, None)], {0})
  {
    DeferInvertBuild(b);
    DeferInvertName(b);
  }

  /** `o.set_as_output("o")`, `c.set_as_output("c")`: renames to the current name change nothing. */
  method DeferOutputs(b: Builder)
    requires InState(b, 2, [RegO, NotC], [], [0, 1], [], {"o", "c"}, [DeferCell(1, None)], {0})
    modifies b
    ensures InState(b, 2, [RegO, NotC], [], [0, 1], [0, 1], {"o", "c"}, [DeferCell(1, None)], {0})
  {
    var _ := b.SetAsOutput(0, Some("o"));
    var _ := b.SetAsOutput(1, Some("c"));
  }

  /** get_netlist: the lambda returns `c`. */
  method DeferDrain(b: Builder) returns (text: Result<string>)
    requires InState(b, 2, [RegO, NotC], [], [0, 1], [0, 1], {"o", "c"}, [DeferCell(1, None)], {0})
    modifies b
    ensures InState(b, 2, [RegO, NotC], [], [0, 1], [0, 1], {"o", "c"}, [DeferCell(1, Some(1))], {})
    ensures text == b.Netlist()
  {
    text := b.GetNetlist(map[0 := 1]);
  }

  ghost predicate DeferDone(b: Builder) reads b {
    InState(b, 2, [RegO, NotC], [], [0, 1], [0, 1], {"o", "c"}, [DeferCell(1, Some(1))], {})
  }

  lemma DeferLineO(b: Builder)
    requires DeferDone(b)
    ensures b.Line(0) == "o = REG c"
  {
    assert b.RefNames([Def(0)]) == ["c"];
    assert Operands(RegO.node) == [Def(0)];
    assert ["o", "="] + Head(RegO.node) + ["c"] == ["o", "=", "REG", "c"];
    assert Join(["REG", "c"], " ") == "REG c";
    assert Join(["=", "REG", "c"], " ") == "= REG c";
  }

  lemma DeferLineC(b: Builder)
    requires DeferDone(b)
    ensures b.Line(1) == "c = NOT o"
  {
    assert b.RefNames([Var(0)]) == ["o"];
    assert Operands(NotC.node) == [Var(0)];
    assert ["c", "="] + Head(NotC.node) + ["o"] == ["c", "=", "NOT", "o"];
    assert Join(["NOT", "o"], " ") == "NOT o";
    assert Join(["=", "NOT", "o"], " ") == "= NOT o";
  }

  lemma DeferSections()
    ensures Section("INPUT", []) == "INPUT \n"
    ensures Section("OUTPUT", ["o", "c"]) == "OUTPUT o, c\n"
    ensures Section("VAR", ["o", "c"]) == "VAR o, c\n"
  {
    assert Join(["o", "c"], ", ") == "o, c";
  }

  lemma DeferLinesText()
    ensures "o = REG c" + "\n" + ("c = NOT o" + "\n" + "") == "o = REG c\nc = NOT o\n"
  {
  }

  lemma DeferLines(b: Builder)
    requires DeferDone(b)
    ensures b.Lines(b.equations) == "o = REG c\nc = NOT o\n"
  {
    DeferLineO(b);
    DeferLineC(b);
    assert [0, 1][1..] == [1] && [1][1..] == [];
    assert b.Lines([1]) == "c = NOT o" + "\n" + "";
    DeferLinesText();
  }

  lemma DeferNames(b: Builder)
    requires b.vars == [RegO, NotC] && b.inputs == [] && b.outputs == [0, 1]
    ensures b.NamesOf(b.inputs) == [] && b.NamesOf(b.outputs) == ["o", "c"]
  {
  }

  lemma DeferFullNames(b: Builder)
    requires b.vars == [RegO, NotC] && b.inputs == [] && b.equations == [0, 1]
    ensures b.FullNamesOf(b.inputs + b.equations) == ["o", "c"]
  {
    assert b.inputs + b.equations == [0, 1];
  }

  lemma DeferText(b: Builder)
    requires DeferDone(b)
    ensures b.Netlist() == Ok("INPUT \n" + "OUTPUT o, c\n" + "VAR o, c\n" + "IN\n" + "o = REG c\nc = NOT o\n")
  {
    DeferLines(b);
    DeferNames(b);
    DeferFullNames(b);
    assert b.AllResolved();
    DeferSections();
  }

  // ---- an object of an earlier generation ----

  /** `a = Input(1, "a")`, `reset()`, `Input(1, "a")`, then `a.set_as_output("a")`
      on the old object: the same-name rename is a no-op and the old variable
      is appended to the outputs. */
  method StaleSameName() returns (r: Outcome, outputs: seq<nat>)
    ensures r == Pass && outputs == [0]
  {
    var b := new Builder();
    var a0 := b.AddInput(1, Some("a"));
    b.Reset();
    var a1 := b.AddInput(1, Some("a"));
    r := b.SetAsOutput(a0.value, Some("a"));
    outputs := b.outputs;
  }

  /** tutorial/2_defer.py: a REG/NOT loop closed through a Defer. */
  method DeferLoop() returns (text: Result<string>)
    ensures text == Ok("INPUT \n" + "OUTPUT o, c\n" + "VAR o, c\n" + "IN\n" + "o = REG c\nc = NOT o\n")
  {
    var b := new Builder();
    DeferRegister(b);
    DeferInvert(b);
    DeferOutputs(b);
    text := DeferDrain(b);
    DeferText(b);
  }
}

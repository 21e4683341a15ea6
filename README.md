# carotte.py netlist builder, modelled in Dafny

carotte.py is a Python library for describing digital circuits. The user builds
variables such as inputs, constants, gates, registers, memories and bus
slices. Calling `get_netlist` then prints the netlist: `INPUT`, `OUTPUT`,
`VAR` and `IN` sections. This project models the library core,
`lib_carotte.py`, and proves properties of that model.

Layout:

- `decimal.dfy` (module `Decimal`): `str()` of integers, plus a parser that inverts it.
- `names.dfy` (module `Names`): the generated names (`_l_<n>`, `_input_<n>`,
  `_<lhs>_<n>`, `_<x>_slc_<i>_<j>`, `_<x>_sel_<i>`), the `VAR` entry
  `name:width`, `", ".join`, and the fact that drives termination of the
  free-name search.
- `circuit.dfy` (module `Circuit`): the values of the graph.
  - Operands are a variable index or a Defer index.
  - There is one node kind per node class.
  - A variable is its name, width, auto-name flag and node.
  - A Defer cell is its declared width and cached value.
  - It also holds the width rule of every node, the text of an `IN` line, and the `Constant` character check.
- `builder.dfy` (module `Carotte`): the class `Builder`, whose fields are the module globals.
  - The globals are `_equation_counter`, the variable arena, `_input_list`, `_equation_list`, `_output_list`, `_name_set`, the Defer arena, `_unevaluated_defer_set` and the ribbon flag.
  - It has one method per operation: construction, renaming, the assignment hook, `set_as_output`, `__getitem__`, `Defer.get_val`, `get_netlist` and `reset`.
  - Every method keeps `Valid()`, which states four things:
    - the name set holds exactly the names of the variables built since the last reset, each owned by one of them;
    - the lists hold distinct, existing variables of the right kind;
    - every node satisfies its width rule over operands built before it, so a cycle can only go through a Defer;
    - a pending Defer is unresolved.
- `tutorial.dfy` (module `Tutorial`): the scenario of `tutorial/2_defer.py`, built call by call. It is proved to print the netlist given in that file's comment. It also holds `StaleSameName`, a short scenario of a reset followed by a same-named input, where the old variable's `set_as_output` with its own name does nothing but append.

A Python object is an index into an arena. The source reaches the globals
implicitly; here they are fields of one `Builder` object. The assignment hook
that the source-rewriting import machinery inserts is the explicit method
`AssignPost`. Python operator overloads (`&`, `|`, `^`, `~`, `+`, `[]`) are
the constructor methods they call.

Four behaviours of lib_carotte.py that are easy to miss, all modelled as the code has them:

- An unnamed `Input` takes `_input_<n>` without looking for a free name. When that name is taken, it raises instead of retrying.
- `reset` keeps the pending-Defer set and the ribbon flag.
- A Defer of the wrong width fails an `assert`. That is `DeferBusSizeMismatch` here, not a shape error. The resolved value is cached before the check.
- A Defer whose supplier failed stays unresolved. A later `get_netlist` then fails with `KeyError` when it names that operand.

## Model

| member | source | states |
|---|---|---|
| Decimal.NatToString | lib_carotte.py:167 | `str(n)` is a non-empty string of digits with no leading zero above 9 |
| Decimal.ParseNatToString | lib_carotte.py:63 | reading back the decimal text of `n` gives `n` |
| Decimal.NatToStringInjective | lib_carotte.py:167 | distinct counter values print as distinct digit strings |
| Decimal.IntToString | lib_carotte.py:266 | `str(i)` of a ROM or RAM size, which may be negative: a `-` for negative values, then the digits |
| Decimal.IntToStringValue | lib_carotte.py:266 | the digits of `str(i)` read back as `i`, or as `-i` after the minus sign of a negative value |
| Names.Join | lib_carotte.py:346-348 | definition: `sep.join(xs)` |
| Names.Section | lib_carotte.py:346-348 | a header line starts with its keyword and a space and ends with a newline |
| Names.LName | lib_carotte.py:167 | definition: the candidate `_l_<n>` |
| Names.InputName | lib_carotte.py:154 | definition: the automatic input name `_input_<n>` |
| Names.FallbackName | lib_carotte.py:98 | definition: the hook's fallback name `_<lhs>_<n>` |
| Names.SliceName | lib_carotte.py:313-314 | definition: `_` unless the name already starts with it, then `<x>_slc_<i1>_<i2-1>` |
| Names.SelectName | lib_carotte.py:327 | definition: `_` unless the name already starts with it, then `<x>_sel_<i>` |
| Names.FullName | lib_carotte.py:59-63 | definition of get_full_name; its partner is FullNameRoundTrip |
| Names.FullNameRoundTrip | lib_carotte.py:59-63 | a `VAR` entry (bare for one wire, `name:width` otherwise) parses back to the name and width it was printed from, for names without `:` |
| Names.LNameInjective | lib_carotte.py:167 | distinct counter values give distinct `_l_<n>` candidates |
| Names.TakenShrinks | lib_carotte.py:166-169 | each retry of the free-name loop leaves one fewer taken candidate ahead, so the loop ends |
| Names.SliceNameMarked | lib_carotte.py:312-314 | the cosmetic name of a slice contains `_slc_` and starts with `_`, so a slice of it is not renamed again |
| Names.SelectNameStartsWithUnderscore | lib_carotte.py:327 | (small fact, proved by unfolding) the cosmetic name of a select starts with `_`, whether or not the operand's name did |
| Circuit.Operands | lib_carotte.py:184-329 | definition: the operands of each node kind, in the order its `__str__` prints them |
| Circuit.Head | lib_carotte.py:184-329 | definition: the words between `=` and the operands: the constant, the keyword, and the printed sizes or indices of ROM, RAM, SLICE and SELECT |
| Circuit.EquationLine | lib_carotte.py:160-329 | definition: `str(v)`: the bare name of an input, and for an equation its words joined by single spaces |
| Circuit.RefSize | lib_carotte.py:141-142 | definition: `x.bus_size` of an operand; for a Defer the declared width, read without forcing it |
| Circuit.EquationLineWords | lib_carotte.py:184-329 | for every node kind, the line is `<name> = ` then the head words and the operand names in order, one space apart |
| Circuit.EquationLineDefines | lib_carotte.py:350 | every `IN` line starts with `<name> = ` |
| Circuit.CheckConstantBits | lib_carotte.py:178-181 | the character loop accepts exactly the strings over `0`, `1`, `t`, `f` |
| Circuit.ShapedOperandsExist | lib_carotte.py:190-329 | proof helper of Line, proved by unfolding: a well-shaped node's operands are Defers or variables built before it |
| Carotte.CatchValueError | lib_carotte.py:79-83 | a ValueError (name taken) becomes false, success becomes true, and any other error goes through unchanged |
| Carotte.CosmeticName | lib_carotte.py:312-327 | definition: the name a Slice or Select keeps: the derived name it tries when that differs from its `_l_` name and is free, else the `_l_` name |
| Carotte.CosmeticAfterRegister | lib_carotte.py:312-314 | registering a Slice or Select under `_l_<n>` and then trying its cosmetic name leaves the same arena, name set and owners as registering it once under the name CosmeticName picks |
| Carotte.Supplied | lib_carotte.py:135 | definition: what a Defer's `lazy_val()` returns, `None` when it raises |
| Carotte.ForcedStep | lib_carotte.py:338-340 | forcing one more pending Defer keeps the relation "every forced Defer cached its supplier's answer, every other Defer is unchanged" |
| Carotte.Builder.constructor | lib_carotte.py:25-31 | the initial globals: everything empty, counter 0, ribbon logic off, valid |
| Carotte.Builder.AllowRibbonLogicOperations | lib_carotte.py:33-36 | sets the ribbon flag and nothing else |
| Carotte.Builder.NextCounter | lib_carotte.py:38-43 | returns the old counter and increments it by one |
| Carotte.Builder.FreshEquationName | lib_carotte.py:165-169 | returns `_l_<n>` for the first counter value whose candidate is free; every earlier candidate it consumed was taken |
| Carotte.Builder.Register | lib_carotte.py:47-53 | a free name enters the name set and the variable is appended to the arena and to exactly one of the input and equation lists; validity is kept |
| Carotte.Builder.RegisterKeepsLists | lib_carotte.py:159 | appending the new variable to its list keeps the lists distinct and of the right kind |
| Carotte.Builder.RegisterKeepsRegistry | lib_carotte.py:48-50 | after registration the name set still holds exactly the live variables' names, one owner each |
| Carotte.Builder.NewEquation | lib_carotte.py:163-171 | the free-name loop runs first; a negative width then fails the assertion with the counter already moved; otherwise the variable is appended to the equations under that name |
| Carotte.Builder.BusSize | lib_carotte.py:141-142 | definition: `x.bus_size`; for a Defer the declared width, never forcing it |
| Carotte.Builder.HandName | lib_carotte.py:143-144 | definition: the operand's name when it was chosen by hand (`not x.autogen_name`); a Defer reads as auto-named |
| Carotte.Builder.Rename | lib_carotte.py:65-73 | same name: no-op; taken name: ValueError and nothing changes; a variable of an earlier generation whose name is no longer in the set: KeyError from `set.remove` and nothing changes; otherwise the old name leaves the set, the new one enters it and the flag is set; names stay unique |
| Carotte.Builder.RenameOutcome | lib_carotte.py:65-73 | definition: what `rename` returns or raises: pass for the same name, ValueError for a taken one, KeyError for an unregistered old name, pass otherwise |
| Carotte.Builder.RenameKeepsRegistry | lib_carotte.py:70-72 | a successful rename keeps one owner per registered name |
| Carotte.Builder.TryRename | lib_carotte.py:75-83 | false with no change when an auto name would replace a hand-chosen one; otherwise the rename, with a collision answered by false instead of raising |
| Carotte.Builder.PickAssignName | lib_carotte.py:96-98 | `lhs` when free, else `_<lhs>_<n>` with a fresh counter value, which is consumed only in that case |
| Carotte.Builder.AssignPostName | lib_carotte.py:96-98 | definition: the name `__assignpost__` tries: `lhs` when free, else `_<lhs>_<counter>` |
| Carotte.Builder.AssignPost | lib_carotte.py:91-99 | acts only on an auto-named variable with a target name; tries the picked name as a hand-chosen name, swallowing a collision |
| Carotte.Builder.SetAsOutput | lib_carotte.py:54-58 | the hard rename comes first and on failure nothing is appended; otherwise the variable is appended to the outputs, once, in call order |
| Carotte.Builder.AppendOutput | lib_carotte.py:58 | appends to the output list and keeps validity |
| Carotte.Builder.AddInput | lib_carotte.py:149-159 | an unnamed input takes `_input_<n>` (consuming the counter); a taken name raises with no retry and no change; a negative width fails; otherwise it is appended to the inputs |
| Carotte.Builder.AddConstant | lib_carotte.py:173-183 | an empty string or a character outside `01tf` is rejected before any naming; otherwise an equation as wide as the string |
| Carotte.Builder.AddUnop | lib_carotte.py:187-196 | width other than 1 rejected unless ribbon logic is on, with nothing changed; otherwise an equation as wide as the operand |
| Carotte.Builder.AddBinop | lib_carotte.py:210-222 | unequal widths, or width other than 1 without ribbon logic, rejected with nothing changed; otherwise an equation of the common width |
| Carotte.Builder.AddMux | lib_carotte.py:241-251 | a choice of any width other than 1, or sides of different widths, rejected; otherwise an equation as wide as the sides |
| Carotte.Builder.AddRom | lib_carotte.py:255-264 | an address of the wrong width rejected; otherwise an equation `word_size` wide |
| Carotte.Builder.AddRam | lib_carotte.py:268-289 | each of the four width checks rejects with nothing changed; otherwise an equation `word_size` wide |
| Carotte.Builder.AddConcat | lib_carotte.py:294-299 | an equation as wide as both operands together |
| Carotte.Builder.AddDerived | lib_carotte.py:308-314 | a Slice or Select takes the free `_l_<n>`, then its cosmetic name when that differs and is free; the result stays auto-named |
| Carotte.Builder.AddSlice | lib_carotte.py:303-316 | `0 <= i1 < i2 <= w` or IndexError with nothing changed; width `i2 - i1`, inclusive end `i2 - 1` stored; a hand-named operand without `_slc_` gives the cosmetic slice name |
| Carotte.Builder.AddSelect | lib_carotte.py:318-327 | `0 <= i < w` or IndexError with nothing changed; width 1; any hand-named operand gives the cosmetic select name |
| Carotte.Builder.GetItem | lib_carotte.py:111-120 | `x[i]` is Select; `x[a:b]` is Slice with start 0 and stop the width by default; a step other than 1 is a TypeError with nothing changed |
| Carotte.Builder.NewDefer | lib_carotte.py:126-130 | a new unresolved Defer of the declared width joins the pending set; nothing else changes |
| Carotte.Builder.GetVal | lib_carotte.py:131-137 | a resolved Defer answers from its cache; an unresolved one that is no longer pending raises KeyError; otherwise it leaves the pending set, caches the supplier's answer, then checks the width |
| Carotte.Builder.GetValTwice | lib_carotte.py:131-137 | once a read succeeds, a second read gives the same variable whatever the supplier would now return; after a failed supplier the second read raises KeyError; after a width mismatch the second read answers the wrong-width variable from the cache, because the width check runs only when the cache is filled |
| Carotte.Builder.RefName | lib_carotte.py:140 | definition: the name of a variable, or of the target of a resolved Defer; an unresolved Defer gets the placeholder `""`, where the source would raise KeyError, and that placeholder is never printed because `Netlist` produces text only when `AllResolved()` holds |
| Carotte.Builder.RefNames | lib_carotte.py:138-140 | the operand names printed on a line, one per operand, a Defer printing its target's name |
| Carotte.Builder.Line | lib_carotte.py:350 | the line of an input is its bare name; the line of an equation is `<name> = `, the head words, then the current names of its operands in order |
| Carotte.Builder.Lines | lib_carotte.py:350 | definition: each equation's line followed by a newline, in list order |
| Carotte.Builder.LinesConcat | lib_carotte.py:350 | the `IN` text of two lists strung together is the text of the first, then of the second |
| Carotte.Builder.LinesAppendOne | lib_carotte.py:171 | appending an equation to the list appends exactly its line to the `IN` text |
| Carotte.Builder.NamesOf | lib_carotte.py:346-347 | definition: the names of the listed variables, in list order |
| Carotte.Builder.FullNamesOf | lib_carotte.py:348 | definition: get_full_name of the listed variables, in list order |
| Carotte.Builder.Netlist | lib_carotte.py:344-351 | the text exists exactly when every operand Defer is resolved; otherwise naming the unresolved Defer raises KeyError |
| Carotte.Builder.NetlistLayout | lib_carotte.py:344-351 | the text starts with the `INPUT` header and ends with `IN`, then the lines of the equations |
| Carotte.Builder.DeclarationsDistinct | lib_carotte.py:348 | no name is declared twice in the `VAR` section, which lists the inputs then the equations |
| Carotte.Builder.GetNetlist | lib_carotte.py:331-358 | drains every pending Defer; when every supplier fits, the pending set ends empty and the text is the four sections in list order; otherwise the supplier's failure or the width assertion propagates; names and lists are never changed |
| Carotte.Builder.Reset | lib_carotte.py:360-367 | counter, the three lists and the name set start over; pending Defers and the ribbon flag survive |
| Tutorial.DeferRegisterBuild | tutorial/2_defer.py:33 | `Reg(Defer(1, lambda: c))` leaves one pending Defer and the equation `_l_0` |
| Tutorial.DeferRegisterName | tutorial/2_defer.py:33 | the assignment hook renames `_l_0` to `o` as a hand-chosen name |
| Tutorial.DeferRegister | tutorial/2_defer.py:33 | `o = Reg(Defer(1, lambda: c))` yields one pending Defer and the equation `o` |
| Tutorial.DeferInvertBuild | tutorial/2_defer.py:34 | `~o` adds the equation `_l_1` |
| Tutorial.DeferInvertName | tutorial/2_defer.py:34 | the assignment hook renames `_l_1` to `c` |
| Tutorial.DeferInvert | tutorial/2_defer.py:34 | `c = ~o` yields the equation `c` |
| Tutorial.DeferOutputs | tutorial/2_defer.py:36-37 | both outputs appended in call order, renames to the current name change nothing |
| Tutorial.DeferDrain | lib_carotte.py:338-340 | the netlist call resolves the Defer to `c` and empties the pending set |
| Tutorial.DeferLineO | tutorial/2_defer.py:44 | the first `IN` line is `o = REG c` |
| Tutorial.DeferLineC | tutorial/2_defer.py:45 | the second `IN` line is `c = NOT o` |
| Tutorial.DeferSections | tutorial/2_defer.py:40-42 | proof step of DeferText: the header lines of this netlist, character by character |
| Tutorial.DeferLinesText | tutorial/2_defer.py:44-45 | proof step of DeferLines: the two `IN` lines joined with their newlines, as literals |
| Tutorial.DeferLines | tutorial/2_defer.py:44-45 | the `IN` section of the scenario |
| Tutorial.DeferNames | tutorial/2_defer.py:40-41 | proof step of DeferText: the entries of the `INPUT` and `OUTPUT` sections of the scenario: none, then `o`, `c` in call order |
| Tutorial.DeferFullNames | tutorial/2_defer.py:42 | proof step of DeferText: the entries of the `VAR` section of the scenario: `o`, `c`, both one wire wide |
| Tutorial.DeferText | tutorial/2_defer.py:39-45 | the whole netlist text of the scenario |
| Tutorial.StaleSameName | lib_carotte.py:54-58 | after a reset and a new input `a`, the old `a`'s `set_as_output("a")` is a same-name no-op rename and the old variable is appended to the outputs |
| Tutorial.DeferLoop | tutorial/2_defer.py:39-45 | building the REG/NOT loop through a Defer and calling the serializer prints exactly the expected netlist |

## Left out

- carotte.py (argument parsing, module loading, file output), alt_transformer.py and alt_instrument.py (source rewriting that inserts the assignment hook) are not part of this model; their one effect on the core is the calls to `AssignPost`.
- The colorama fallback and the disabled debug prints of the assignment hooks: terminal output only.
- Python operator dispatch (`__and__`, `__or__`, `__xor__`, `__invert__`, `__add__`) is modelled by the constructor methods it calls; `__len__` is `BusSize`; `Nand` has no operator in the source and is reached through `AddBinop` as well.
- GetNetlist: Defer suppliers are arbitrary Python closures; the model is given what each one returns (a variable index, or nothing when it raises). A supplier that builds new variables or new Defers while it runs is not modelled, so `GetNetlist`'s outer loop finishes after one batch.
- GetNetlist: the order in which a batch of pending Defers is forced is the hash order of a Python set; the model forces them in an arbitrary order and, on a failure, states which error kind propagates but not which Defer raised it.
- GetNetlist: the length re-check that raises RuntimeError cannot fire in the model, since formatting is a function of the state and changes nothing; it is not a branch of the model.
- AddDerived: the source registers a Slice or Select under `_l_<n>` and then renames it; the model registers it once under the final name, and CosmeticAfterRegister proves the two give the same state.
- The `MEH` error of the base `Unop`/`Binop` classes is unreachable through the concrete node classes and is left out; a non-integer, non-slice index (TypeError in `__getitem__`) cannot be written with the `Index` type.
- Exceptions are modelled by kind (`Error`), not by message text.
- Rename, TryRename, AssignPost, SetAsOutput: require `RenameSafe(v, newName)`, which excludes exactly one case: renaming a variable of an earlier generation, whose name a live variable now holds, to a new name that is different and free (the source then removes the live variable's name from the set and corrupts it). Every other case is modelled: a same-name call is a no-op, a taken name raises ValueError, an earlier-generation variable whose name is free raises KeyError, and `try_rename`'s guard answers false before any rename.
- Integers are unbounded, as in Python; widths are `int` where the source accepts any integer (Defer, ROM and RAM sizes) and `nat` once the `bus_size >= 0` assertion has passed.
- The scenarios of tutorial/0_basic.py and tutorial/3_typing.py are not modelled: their constructions use only the operations above, and proving their full printed text character by character is far costlier for the verifier than the REG/NOT scenario of tutorial/2_defer.py, which is modelled.

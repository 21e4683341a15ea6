/** The circuit graph as values: operands, node kinds, variables, deferred
    cells, the width rule each node satisfies, and the text of one `IN` line. */
module Circuit {
  import opened Decimal
  import opened Names

  /** The exceptions the library raises, by cause. */
  datatype Error =
    | ShapeError            // ValueError: a width or constant check of a node fails
    | IndexError            // IndexError: Slice or Select bounds
    | NameTaken             // ValueError: the requested name is already in use
    | StepError             // TypeError: a slice step other than 1
    | NegativeBusSize       // AssertionError: `bus_size >= 0` in Variable.__init__
    | DeferBusSizeMismatch  // AssertionError: a Defer resolved to a bus of another width
    | SupplierFailed        // whatever a Defer's supplier raised
    | NotPending            // KeyError: removing a Defer that left the pending set
    | NameNotRegistered     // KeyError: renaming a variable whose name is not in the name set

  datatype Option<T> = None | Some(value: T)

  datatype Result<T> = Ok(value: T) | Err(error: Error)

  datatype Outcome = Pass | Fail(error: Error)

  /** An operand: a variable of the arena, or a deferred reference. */
  datatype Ref = Var(idx: nat) | Def(deferId: nat)

  datatype UnopName = Not | Reg

  datatype BinopName = And | Nand | Or | Xor

  /** What a variable computes. `Slice` keeps its end index inclusive, as printed. */
  datatype Node =
    | Input
    | Constant(value: string)
    | Unop(uop: UnopName, x: Ref)
    | Binop(bop: BinopName, lhs: Ref, rhs: Ref)
    | Mux(choice: Ref, a: Ref, b: Ref)
    | Rom(addrSize: int, wordSize: int, readAddr: Ref)
    | Ram(addrSize: int, wordSize: int, readAddr: Ref, writeEnable: Ref, writeAddr: Ref, writeData: Ref)
    | Concat(lhs: Ref, rhs: Ref)
    | Slice(i1: nat, i2: nat, x: Ref)
    | Select(i: nat, x: Ref)

  /** A netlist variable; only `name` and `autogenName` change after construction. */
  datatype Variable = Variable(name: string, busSize: nat, autogenName: bool, node: Node)

  /** A Defer: its declared width and, once forced, the variable it stands for. */
  datatype DeferCell = DeferCell(busSize: int, val: Option<nat>)

  /** The operands of a node, in the order its `IN` line prints them. */
  function Operands(n: Node): seq<Ref>
  {
    match n
    case Input => []
    case Constant(_) => []
    case Unop(_, x) => [x]
    case Binop(_, l, r) => [l, r]
    case Mux(c, a, b) => [c, a, b]
    case Rom(_, _, ra) => [ra]
    case Ram(_, _, ra, we, wa, wd) => [ra, we, wa, wd]
    case Concat(l, r) => [l, r]
    case Slice(_, _, x) => [x]
    case Select(_, x) => [x]
  }

  function UnopKeyword(op: UnopName): string {
    match op
    case Not => "NOT"
    case Reg => "REG"
  }

  function BinopKeyword(op: BinopName): string {
    match op
    case And => "AND"
    case Nand => "NAND"
    case Or => "OR"
    case Xor => "XOR"
  }

  /** The words of an `IN` line between `=` and the operand names. */
  function Head(n: Node): seq<string>
  {
    match n
    case Input => []
    case Constant(v) => [v]
    case Unop(op, _) => [UnopKeyword(op)]
    case Binop(op, _, _) => [BinopKeyword(op)]
    case Mux(_, _, _) => ["MUX"]
    case Rom(a, w, _) => ["ROM", IntToString(a), IntToString(w)]
    case Ram(a, w, _, _, _, _) => ["RAM", IntToString(a), IntToString(w)]
    case Concat(_, _) => ["CONCAT"]
    case Slice(i1, i2, _) => ["SLICE", NatToString(i1), NatToString(i2)]
    case Select(i, _) => ["SELECT", NatToString(i)]
  }

  /** `str(v)`: the bare name of an input; for an equation, its `IN` line
      `name = <head> <operand names>`, space separated. */
  function EquationLine(name: string, n: Node, operandNames: seq<string>): string
  {
    if n.Input? then name else Join([name, "="] + Head(n) + operandNames, " ")
  }

  /** An `IN` line is the defined name, ` = `, then the head words and the
      operand names in order, separated by single spaces. */
  lemma EquationLineWords(name: string, n: Node, operandNames: seq<string>)
    requires !n.Input?
    ensures EquationLine(name, n, operandNames) == name + " = " + Join(Head(n) + operandNames, " ")
  {
    var rest := Head(n) + operandNames;
    var words := [name, "="] + rest;
    assert words == [name, "="] + Head(n) + operandNames;
    assert |rest| >= 1;
    assert words[1..] == ["="] + rest && (["="] + rest)[1..] == rest;
    assert Join(words[1..], " ") == "=" + " " + Join(rest, " ");
    var tail := Join(rest, " ");
    assert Join(words, " ") == name + " " + ("=" + " " + tail);
    assert " " + "=" + " " == " = ";
    assert name + " " + ("=" + " " + tail) == name + (" " + "=" + " ") + tail;
  }

  /** Every `IN` line begins with the variable it defines. */
  lemma EquationLineDefines(name: string, n: Node, operandNames: seq<string>)
    requires !n.Input?
    ensures StartsWith(EquationLine(name, n, operandNames), name + " = ")
  {
    EquationLineWords(name, n, operandNames);
    var s := EquationLine(name, n, operandNames);
    assert s[..|name + " = "|] == name + " = ";
  }

  predicate IsConstantBits(value: string) {
    forall i :: 0 <= i < |value| ==> value[i] in "01tf"
  }

  /** The loop of Constant.__init__ over the characters of the value. */
  method CheckConstantBits(value: string) returns (ok: bool)
    ensures ok <==> IsConstantBits(value)
  {
    var k := 0;
    while k < |value|
      invariant 0 <= k <= |value|
      invariant forall j :: 0 <= j < k ==> value[j] in "01tf"
    {
      if value[k] !in "01tf" {
        return false;
      }
      k := k + 1;
    }
    return true;
  }

  /** The operand exists: a variable created before index `bound`, or a Defer. */
  ghost predicate RefOkAt(defers: seq<DeferCell>, bound: nat, r: Ref) {
    match r
    case Var(j) => j < bound
    case Def(d) => d < |defers|
  }

  /** `operand.bus_size`: a Defer answers with its declared width, unresolved or not. */
  function RefSize(vars: seq<Variable>, defers: seq<DeferCell>, r: Ref): int
    requires r.Var? ==> r.idx < |vars|
    requires r.Def? ==> r.deferId < |defers|
  {
    match r
    case Var(j) => vars[j].busSize
    case Def(d) => defers[d].busSize
  }

  /** The width rule of a node with operands taken from `vars[..bound]` and `defers`.
      It does not mention the ribbon flag: that only decides what may be built. */
  ghost predicate ShapedNode(vars: seq<Variable>, defers: seq<DeferCell>, bound: nat, busSize: nat, n: Node)
    requires bound <= |vars|
  {
    match n
    case Input => true
    case Constant(v) => v != [] && IsConstantBits(v) && busSize == |v|
    case Unop(_, x) => RefOkAt(defers, bound, x) && busSize == RefSize(vars, defers, x)
    case Binop(_, l, r) =>
      && RefOkAt(defers, bound, l) && RefOkAt(defers, bound, r)
      && busSize == RefSize(vars, defers, l) == RefSize(vars, defers, r)
    case Mux(c, a, b) =>
      && RefOkAt(defers, bound, c) && RefOkAt(defers, bound, a) && RefOkAt(defers, bound, b)
      && RefSize(vars, defers, c) == 1 && busSize == RefSize(vars, defers, a) == RefSize(vars, defers, b)
    case Rom(addr, word, ra) =>
      RefOkAt(defers, bound, ra) && RefSize(vars, defers, ra) == addr && busSize == word
    case Ram(addr, word, ra, we, wa, wd) =>
      && RefOkAt(defers, bound, ra) && RefOkAt(defers, bound, we)
      && RefOkAt(defers, bound, wa) && RefOkAt(defers, bound, wd)
      && RefSize(vars, defers, ra) == addr && RefSize(vars, defers, we) == 1
      && RefSize(vars, defers, wa) == addr && RefSize(vars, defers, wd) == word && busSize == word
    case Concat(l, r) =>
      && RefOkAt(defers, bound, l) && RefOkAt(defers, bound, r)
      && busSize == RefSize(vars, defers, l) + RefSize(vars, defers, r)
    case Slice(i1, i2, x) =>
      RefOkAt(defers, bound, x) && i1 <= i2 < RefSize(vars, defers, x) && busSize == i2 - i1 + 1
    case Select(i, x) => RefOkAt(defers, bound, x) && i < RefSize(vars, defers, x) && busSize == 1
  }

  /** A well-shaped node refers only to Defers and to variables built before it:
      a cycle in the graph can only be closed through a Defer. */
  lemma ShapedOperandsExist(vars: seq<Variable>, defers: seq<DeferCell>, bound: nat, busSize: nat, n: Node)
    requires bound <= |vars| && ShapedNode(vars, defers, bound, busSize, n)
    ensures forall r :: r in Operands(n) ==> RefOkAt(defers, bound, r)
  {
  }

  ghost predicate AllShaped(vars: seq<Variable>, defers: seq<DeferCell>) {
    forall i :: 0 <= i < |vars| ==> ShapedNode(vars, defers, i, vars[i].busSize, vars[i].node)
  }

  /** Widths and nodes of the first `|vars|` variables kept, Defer widths kept. */
  ghost predicate ShapesKept(vars: seq<Variable>, defers: seq<DeferCell>, vars': seq<Variable>, defers': seq<DeferCell>) {
    && |vars| <= |vars'| && |defers| <= |defers'|
    && (forall j :: 0 <= j < |vars| ==> vars'[j].busSize == vars[j].busSize && vars'[j].node == vars[j].node)
    && (forall d :: 0 <= d < |defers| ==> defers'[d].busSize == defers[d].busSize)
  }

  lemma ShapedNodeKept(vars: seq<Variable>, defers: seq<DeferCell>, vars': seq<Variable>, defers': seq<DeferCell>,
                       bound: nat, busSize: nat, n: Node)
    requires bound <= |vars| && ShapesKept(vars, defers, vars', defers')
    requires ShapedNode(vars, defers, bound, busSize, n)
    ensures ShapedNode(vars', defers', bound, busSize, n)
  {
    ShapedOperandsExist(vars, defers, bound, busSize, n);
    forall r | r in Operands(n)
      ensures RefOkAt(defers', bound, r) && RefSize(vars', defers', r) == RefSize(vars, defers, r)
    {
    }
  }

  /** Renames, resolutions and appends keep every node well shaped. */
  lemma AllShapedKept(vars: seq<Variable>, defers: seq<DeferCell>, vars': seq<Variable>, defers': seq<DeferCell>)
    requires AllShaped(vars, defers) && ShapesKept(vars, defers, vars', defers')
    requires forall i :: |vars| <= i < |vars'| ==> ShapedNode(vars', defers', i, vars'[i].busSize, vars'[i].node)
    ensures AllShaped(vars', defers')
  {
    forall i | 0 <= i < |vars'|
      ensures ShapedNode(vars', defers', i, vars'[i].busSize, vars'[i].node)
    {
      if i < |vars| {
        ShapedNodeKept(vars, defers, vars', defers', i, vars[i].busSize, vars[i].node);
      }
    }
  }
}

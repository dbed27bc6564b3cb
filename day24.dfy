/** Day 24, Arithmetic Logic Unit: a four-register machine reads fourteen
    digits and computes with add, mul, div, mod and eql. The program is
    translated into straight-line code by running it symbolically: each
    register holds a constant, an input digit or a shared expression, and
    operations on constants are folded. The translated code was then
    simplified by hand into a base-26 stack of digits (`process_no_div`
    pushes, `process_with_div` pops or replaces). */
module Day24 {
  import opened Common

  // ---------------------------------------------------------------------
  // Integer arithmetic as Rust's `isize` does it

  /** Rust's `/`: the quotient rounded toward zero. */
  function RustDiv(x: int, y: int): int
    requires y != 0
  {
    if (x >= 0) == (y > 0) then Abs(x) / Abs(y) else -(Abs(x) / Abs(y))
  }

  /** Rust's `%`: what `RustDiv` leaves over. */
  function RustRem(x: int, y: int): int
    requires y != 0
  {
    x - y * RustDiv(x, y)
  }

  /** On a non-negative dividend and a positive divisor Rust's division
      and remainder are Dafny's. */
  lemma RustIsEuclidean(x: int, y: int)
    requires x >= 0 && y > 0
    ensures RustDiv(x, y) == x / y && RustRem(x, y) == x % y
  {
  }

  /** Every number is a multiple of one: `x % 1 == 0`. */
  lemma RemOne(x: int)
    ensures RustRem(x, 1) == 0
  {
    DivOne(x);
  }

  /** Dividing by one changes nothing. */
  lemma DivOne(x: int)
    ensures RustDiv(x, 1) == x
  {
  }

  /** Zero divided by anything is zero, and so is its remainder. */
  lemma ZeroDiv(y: int)
    requires y != 0
    ensures RustDiv(0, y) == 0 && RustRem(0, y) == 0
  {
  }

  // ---------------------------------------------------------------------
  // The machine

  datatype Register = W | X | Y | Z

  datatype Operation = Inp | Add | Mul | Div | Mod | Eql

  datatype Arg2 = Reg(reg: Register) | Literal(lit: int)

  datatype Instruction = Instruction(op: Operation, arg1: Register, arg2: Arg2)

  /** One step of the machine on concrete numbers; `None` where Rust
      panics (division or remainder by zero). */
  function Apply(op: Operation, x: int, y: int): (r: Option<int>)
    requires op != Inp
    ensures r.None? <==> (op == Div || op == Mod) && y == 0
  {
    match op
    case Add => Some(x + y)
    case Mul => Some(x * y)
    case Div => if y == 0 then None else Some(RustDiv(x, y))
    case Mod => if y == 0 then None else Some(RustRem(x, y))
    case Eql => Some(if x == y then 1 else 0)
  }

  /** The concrete machine: four registers and the index of the next
      input digit. */
  datatype Regs = Regs(next: nat, w: int, x: int, y: int, z: int)

  function Read(regs: Regs, r: Register): int {
    match r
    case W => regs.w
    case X => regs.x
    case Y => regs.y
    case Z => regs.z
  }

  function Write(regs: Regs, r: Register, v: int): (regs': Regs)
    ensures regs'.next == regs.next
    ensures forall s :: Read(regs', s) == if s == r then v else Read(regs, s)
  {
    match r
    case W => regs.(w := v)
    case X => regs.(x := v)
    case Y => regs.(y := v)
    case Z => regs.(z := v)
  }

  /** What an instruction does to the concrete machine reading `inputs`:
      `None` when it reads past the inputs or divides by zero. */
  function Exec(regs: Regs, inst: Instruction, inputs: seq<int>): Option<Regs> {
    if inst.op == Inp then
      if regs.next < |inputs| then Some(Write(regs, inst.arg1, inputs[regs.next]).(next := regs.next + 1)) else None
    else
      var right := match inst.arg2 case Reg(r) => Read(regs, r) case Literal(n) => n;
      match Apply(inst.op, Read(regs, inst.arg1), right)
      case Some(v) => Some(Write(regs, inst.arg1, v))
      case None => None
  }

  /** A whole program on the concrete machine. */
  function ExecAll(regs: Regs, program: seq<Instruction>, inputs: seq<int>): Option<Regs>
    decreases |program|
  {
    if program == [] then Some(regs)
    else
      match Exec(regs, program[0], inputs)
      case Some(regs') => ExecAll(regs', program[1..], inputs)
      case None => None
  }

  // ---------------------------------------------------------------------
  // The symbolic machine of `AluState`

  /** `RegisterState`: a constant, the `idx`-th input, or the shared
      expression number `id` (`Rc<Expression>` is modelled by its index in
      `shared`). */
  datatype RegisterState = Value(v: int) | Input(idx: nat) | Expr(id: nat)

  datatype Expression = Expression(op: Operation, arg1: RegisterState, arg2: RegisterState)

  /** Refers to no shared expression at or after `n`. */
  predicate Below(rs: RegisterState, n: nat) {
    rs.Expr? ==> rs.id < n
  }

  /** Every shared expression refers only to earlier ones: `shared` only
      grows, and a new expression is built from registers that already
      exist. */
  predicate Acyclic(shared: seq<Expression>) {
    forall i | 0 <= i < |shared| :: shared[i].op != Inp && Below(shared[i].arg1, i) && Below(shared[i].arg2, i)
  }

  function Rank(rs: RegisterState): nat {
    if rs.Expr? then rs.id + 1 else 0
  }

  /** The number a register state stands for, given the inputs: `None`
      when an input is missing or the expression divides by zero. */
  function Eval(rs: RegisterState, shared: seq<Expression>, inputs: seq<int>): Option<int>
    requires Acyclic(shared) && Below(rs, |shared|)
    decreases Rank(rs)
  {
    match rs
    case Value(v) => Some(v)
    case Input(k) => if k < |inputs| then Some(inputs[k]) else None
    case Expr(id) =>
      var e := shared[id];
      match (Eval(e.arg1, shared, inputs), Eval(e.arg2, shared, inputs))
      case (Some(a), Some(b)) => Apply(e.op, a, b)
      case _ => None
  }

  /** Appending an expression leaves the meaning of the existing ones
      alone. */
  lemma {:induction false} EvalExtend(rs: RegisterState, shared: seq<Expression>, e: Expression, inputs: seq<int>)
    requires Acyclic(shared) && Acyclic(shared + [e]) && Below(rs, |shared|)
    ensures Eval(rs, shared + [e], inputs) == Eval(rs, shared, inputs)
    decreases Rank(rs)
  {
    if rs.Expr? {
      var f := shared[rs.id];
      assert (shared + [e])[rs.id] == f;
      EvalExtend(f.arg1, shared, e, inputs);
      EvalExtend(f.arg2, shared, e, inputs);
    }
  }

  /** The contents of `AluState`. */
  datatype Alu = Alu(next: nat, shared: seq<Expression>, w: RegisterState, x: RegisterState, y: RegisterState, z: RegisterState)

  function Get(a: Alu, r: Register): RegisterState {
    match r
    case W => a.w
    case X => a.x
    case Y => a.y
    case Z => a.z
  }

  function Set(a: Alu, r: Register, v: RegisterState): (a': Alu)
    ensures a'.next == a.next && a'.shared == a.shared
    ensures forall s :: Get(a', s) == if s == r then v else Get(a, s)
  {
    match r
    case W => a.(w := v)
    case X => a.(x := v)
    case Y => a.(y := v)
    case Z => a.(z := v)
  }

  /** The registers refer to existing expressions and inputs already
      read, and the expressions are acyclic. */
  predicate AluOk(a: Alu) {
    Acyclic(a.shared)
    && forall r :: Below(Get(a, r), |a.shared|) && (Get(a, r).Input? ==> Get(a, r).idx < a.next)
  }

  /** `AluState::new`: every register holds `Value(0)`, no input has been
      read and nothing is shared. */
  const Start: Alu := Alu(0, [], Value(0), Value(0), Value(0), Value(0))

  /** The outcome of the match on the two operands of a binary operation:
      a folded register state, a new shared expression, or a panic (Rust
      dividing a constant by the constant zero). */
  datatype Outcome = Folded(rs: RegisterState) | Fresh | DivideByZero

  /** The constant folding of `apply_instruction`, arm by arm, with the
      `Mod` arm for a divisor of one corrected to fold to zero. */
  function Fold(op: Operation, left: RegisterState, right: RegisterState): (o: Outcome)
    requires op != Inp
    ensures o.DivideByZero? <==> (op == Div || op == Mod) && left.Value? && right == Value(0)
    ensures o.Folded? && o.rs.Expr? ==> o.rs == left || o.rs == right
    ensures o.Folded? && o.rs.Input? ==> o.rs == left || o.rs == right
  {
    match op
    case Add =>
      if left.Value? && right.Value? then Folded(Value(left.v + right.v))
      else if left == Value(0) then Folded(right)
      else if right == Value(0) then Folded(left)
      else Fresh
    case Mul =>
      if left.Value? && right.Value? then Folded(Value(left.v * right.v))
      else if left == Value(0) || right == Value(0) then Folded(Value(0))
      else if left == Value(1) then Folded(right)
      else if right == Value(1) then Folded(left)
      else Fresh
    case Div =>
      if left.Value? && right.Value? then
        (if right.v == 0 then DivideByZero else Folded(Value(RustDiv(left.v, right.v))))
      else if left == Value(0) then Folded(Value(0))
      else if right == Value(1) then Folded(left)
      else Fresh
    case Mod =>
      if left.Value? && right.Value? then
        (if right.v == 0 then DivideByZero else Folded(Value(RustRem(left.v, right.v))))
      else if left == Value(0) then Folded(Value(0))
      else if right == Value(1) then Folded(Value(0))
      else Fresh
    case Eql =>
      if left.Value? && right.Value? then Folded(Value(if left.v == right.v then 1 else 0))
      else if left.Value? && right.Input? && !(0 <= left.v <= 9) then Folded(Value(0))
      else if left.Input? && right.Value? && !(0 <= right.v <= 9) then Folded(Value(0))
      else if left.Input? && right.Input? && left.idx == right.idx then Folded(Value(1))
      else Fresh
  }

  /** The `Mod` arms as the source writes them: `(_, Value(1)) =>
      Value(1)`. Everything else is `Fold`. */
  function FoldAsWritten(op: Operation, left: RegisterState, right: RegisterState): (o: Outcome)
    requires op != Inp
    ensures o != Fold(op, left, right) <==> op == Mod && !left.Value? && right == Value(1)
  {
    if op == Mod && !left.Value? && right == Value(1) then Folded(Value(1)) else Fold(op, left, right)
  }

  /** `apply_instruction` on the contents of the state: `Inp` takes the
      next input index; any other operation folds or appends a new shared
      expression at index `shared.len()`. `None` where the source
      panics. */
  function Step(a: Alu, inst: Instruction): (r: Option<Alu>)
    ensures r.Some? ==> |a.shared| <= |r.value.shared| <= |a.shared| + 1 && r.value.shared[..|a.shared|] == a.shared
    ensures r.Some? ==> r.value.next == a.next + (if inst.op == Inp then 1 else 0)
    ensures r.Some? ==> forall s :: s != inst.arg1 ==> Get(r.value, s) == Get(a, s)
  {
    var left := Get(a, inst.arg1);
    var right := match inst.arg2 case Reg(r) => Get(a, r) case Literal(n) => Value(n);
    if inst.op == Inp then
      Some(Set(a, inst.arg1, Input(a.next)).(next := a.next + 1))
    else
      match Fold(inst.op, left, right)
      case Folded(rs) => Some(Set(a, inst.arg1, rs))
      case Fresh =>
        var id := |a.shared|;
        var b := a.(shared := a.shared + [Expression(inst.op, left, right)]);
        assert b.shared[..id] == a.shared;
        Some(Set(b, inst.arg1, Expr(id)))
      case DivideByZero => None
  }

  /** A whole program on the symbolic machine. */
  function Run(a: Alu, program: seq<Instruction>): Option<Alu>
    decreases |program|
  {
    if program == [] then Some(a)
    else
      match Step(a, program[0])
      case Some(a') => Run(a', program[1..])
      case None => None
  }

  // ---------------------------------------------------------------------
  // Constant folding keeps the meaning of the program

  /** The symbolic state stands for the concrete one: the same number of
      inputs read, and every register evaluates to the concrete value. */
  predicate Agree(a: Alu, regs: Regs, inputs: seq<int>)
    requires AluOk(a)
  {
    a.next == regs.next && forall r :: Eval(Get(a, r), a.shared, inputs) == Some(Read(regs, r))
  }

  /** Puzzle inputs are digits. */
  predicate Digits(inputs: seq<int>) {
    forall i | 0 <= i < |inputs| :: 0 <= inputs[i] <= 9
  }

  /** Each folding arm gives the value the operation computes. */
  lemma FoldSound(op: Operation, left: RegisterState, right: RegisterState, shared: seq<Expression>,
                  inputs: seq<int>, x: int, y: int)
    requires op != Inp && Acyclic(shared) && Below(left, |shared|) && Below(right, |shared|) && Digits(inputs)
    requires Eval(left, shared, inputs) == Some(x) && Eval(right, shared, inputs) == Some(y)
    requires Apply(op, x, y).Some?
    ensures Fold(op, left, right).Folded? ==> Eval(Fold(op, left, right).rs, shared, inputs) == Apply(op, x, y)
  {
    match op
    case Add =>
    case Mul => MulFoldSound(left, right, shared, inputs, x, y);
    case Div => DivFoldSound(left, right, shared, inputs, x, y);
    case Mod => ModFoldSound(left, right, shared, inputs, x, y);
    case Eql => EqlFoldSound(left, right, shared, inputs, x, y);
  }

  lemma MulFoldSound(left: RegisterState, right: RegisterState, shared: seq<Expression>, inputs: seq<int>, x: int, y: int)
    requires Acyclic(shared) && Below(left, |shared|) && Below(right, |shared|)
    requires Eval(left, shared, inputs) == Some(x) && Eval(right, shared, inputs) == Some(y)
    ensures Fold(Mul, left, right).Folded? ==> Eval(Fold(Mul, left, right).rs, shared, inputs) == Some(x * y)
  {
  }

  lemma DivFoldSound(left: RegisterState, right: RegisterState, shared: seq<Expression>, inputs: seq<int>, x: int, y: int)
    requires Acyclic(shared) && Below(left, |shared|) && Below(right, |shared|) && y != 0
    requires Eval(left, shared, inputs) == Some(x) && Eval(right, shared, inputs) == Some(y)
    ensures Fold(Div, left, right).Folded? ==> Eval(Fold(Div, left, right).rs, shared, inputs) == Some(RustDiv(x, y))
  {
    if left.Value? && right.Value? {
    } else if left == Value(0) {
      ZeroDiv(y);
    } else if right == Value(1) {
      DivOne(x);
    }
  }

  lemma ModFoldSound(left: RegisterState, right: RegisterState, shared: seq<Expression>, inputs: seq<int>, x: int, y: int)
    requires Acyclic(shared) && Below(left, |shared|) && Below(right, |shared|) && y != 0
    requires Eval(left, shared, inputs) == Some(x) && Eval(right, shared, inputs) == Some(y)
    ensures Fold(Mod, left, right).Folded? ==> Eval(Fold(Mod, left, right).rs, shared, inputs) == Some(RustRem(x, y))
  {
    if left.Value? && right.Value? {
    } else if left == Value(0) {
      ZeroDiv(y);
    } else if right == Value(1) {
      RemOne(x);
    }
  }

  lemma EqlFoldSound(left: RegisterState, right: RegisterState, shared: seq<Expression>, inputs: seq<int>, x: int, y: int)
    requires Acyclic(shared) && Below(left, |shared|) && Below(right, |shared|) && Digits(inputs)
    requires Eval(left, shared, inputs) == Some(x) && Eval(right, shared, inputs) == Some(y)
    ensures Fold(Eql, left, right).Folded? ==> Eval(Fold(Eql, left, right).rs, shared, inputs) == Some(if x == y then 1 else 0)
  {
  }

  /** One instruction: if the concrete machine can run it, so can the
      symbolic one, and they still agree. */
  lemma StepSound(a: Alu, regs: Regs, inst: Instruction, inputs: seq<int>)
    requires AluOk(a) && Agree(a, regs, inputs) && Digits(inputs)
    requires Exec(regs, inst, inputs).Some?
    ensures Step(a, inst).Some? && AluOk(Step(a, inst).value)
    ensures Agree(Step(a, inst).value, Exec(regs, inst, inputs).value, inputs)
  {
    var left := Get(a, inst.arg1);
    var right := match inst.arg2 case Reg(r) => Get(a, r) case Literal(n) => Value(n);
    var x := Read(regs, inst.arg1);
    var y := match inst.arg2 case Reg(r) => Read(regs, r) case Literal(n) => n;
    assert Eval(right, a.shared, inputs) == Some(y);
    var a' := Step(a, inst).value;
    var regs' := Exec(regs, inst, inputs).value;
    if inst.op != Inp {
      FoldSound(inst.op, left, right, a.shared, inputs, x, y);
      if Fold(inst.op, left, right).Fresh? {
        var e := Expression(inst.op, left, right);
        assert Acyclic(a.shared + [e]);
        forall r ensures Eval(Get(a, r), a.shared + [e], inputs) == Eval(Get(a, r), a.shared, inputs) {
          EvalExtend(Get(a, r), a.shared, e, inputs);
        }
        EvalExtend(left, a.shared, e, inputs);
        EvalExtend(right, a.shared, e, inputs);
        assert (a.shared + [e])[|a.shared|] == e;
      }
    }
    assert forall r :: Eval(Get(a', r), a'.shared, inputs) == Some(Read(regs', r));
  }

  /** A whole program: where the concrete machine runs to the end on
      digit inputs, so does the translation, and every register of the
      translation (the `z` printed by `part1_instructions_to_code` among
      them) evaluates to the concrete register. */
  lemma {:induction false} RunSound(a: Alu, regs: Regs, program: seq<Instruction>, inputs: seq<int>)
    requires AluOk(a) && Agree(a, regs, inputs) && Digits(inputs)
    requires ExecAll(regs, program, inputs).Some?
    ensures Run(a, program).Some? && AluOk(Run(a, program).value)
    ensures Agree(Run(a, program).value, ExecAll(regs, program, inputs).value, inputs)
    decreases |program|
  {
    if program != [] {
      StepSound(a, regs, program[0], inputs);
      RunSound(Step(a, program[0]).value, Exec(regs, program[0], inputs).value, program[1..], inputs);
    }
  }

  /** The start states agree: every register is zero and no input has
      been read. */
  lemma StartAgrees(inputs: seq<int>)
    ensures AluOk(Start) && Agree(Start, Regs(0, 0, 0, 0, 0), inputs)
  {
    assert forall r :: Get(Start, r) == Value(0) && Read(Regs(0, 0, 0, 0, 0), r) == 0;
  }

  /** The `Mod` arm as written is unsound: `inp w` then `mod w 1` leaves
      `Value(1)` in `w`, while the machine holds `5 % 1 == 0` there for the
      input 5. */
  lemma ModOneAsWritten()
    ensures FoldAsWritten(Mod, Input(0), Value(1)) == Folded(Value(1))
    ensures Exec(Exec(Regs(0, 0, 0, 0, 0), Instruction(Inp, W, Literal(0)), [5]).value,
                 Instruction(Mod, W, Literal(1)), [5]) == Some(Regs(1, 0, 0, 0, 0))
  {
    RemOne(5);
  }

  /** The corrected arm folds `x % 1` to zero, which is what the machine
      computes. */
  lemma ModOneCorrected(left: RegisterState, shared: seq<Expression>, inputs: seq<int>, x: int)
    requires Acyclic(shared) && Below(left, |shared|) && Eval(left, shared, inputs) == Some(x)
    ensures Fold(Mod, left, Value(1)).Folded?
    ensures Eval(Fold(Mod, left, Value(1)).rs, shared, inputs) == Apply(Mod, x, 1)
  {
    RemOne(x);
  }

  // ---------------------------------------------------------------------
  // `AluState`, updated in place

  class AluState {
    var next: nat
    var shared: seq<Expression>
    var w: RegisterState
    var x: RegisterState
    var y: RegisterState
    var z: RegisterState

    function Current(): Alu
      reads this
    {
      Alu(next, shared, w, x, y, z)
    }

    /** `AluState::new`. */
    constructor New()
      ensures Current() == Start
    {
      next, shared := 0, [];
      w, x, y, z := Value(0), Value(0), Value(0), Value(0);
    }

    /** `next_input`: hands out the next input index and counts it. */
    method NextInput() returns (idx: nat)
      modifies this
      ensures idx == old(next) && Current() == old(Current()).(next := idx + 1)
    {
      idx := next;
      next := next + 1;
    }

    /** `*self.get_register(reg) = v`. */
    method SetRegister(reg: Register, v: RegisterState)
      modifies this
      ensures Current() == Set(old(Current()), reg, v)
    {
      match reg
      case W => w := v;
      case X => x := v;
      case Y => y := v;
      case Z => z := v;
    }

    /** `apply_instruction`; `ok` is false where the source panics, and
        the state is then left as it was. */
    method ApplyInstruction(inst: Instruction) returns (ok: bool)
      modifies this
      ensures ok == Step(old(Current()), inst).Some?
      ensures ok ==> Current() == Step(old(Current()), inst).value
      ensures !ok ==> Current() == old(Current())
    {
      var left := Get(Current(), inst.arg1);
      var right := match inst.arg2 case Reg(r) => Get(Current(), r) case Literal(n) => Value(n);
      if inst.op == Inp {
        var idx := NextInput();
        SetRegister(inst.arg1, Input(idx));
        return true;
      }
      match Fold(inst.op, left, right)
      case Folded(rs) =>
        SetRegister(inst.arg1, rs);
        ok := true;
      case Fresh =>
        var id := |shared|;
        shared := shared + [Expression(inst.op, left, right)];
        SetRegister(inst.arg1, Expr(id));
        ok := true;
      case DivideByZero =>
        ok := false;
    }
  }

  /** The loop of `part1_instructions_to_code`: a new state, then every
      instruction applied in order. `ok` is false where the source
      panics. */
  method Translate(program: seq<Instruction>) returns (ok: bool, alu: AluState)
    ensures ok == Run(Start, program).Some?
    ensures ok ==> alu.Current() == Run(Start, program).value
  {
    alu := new AluState.New();
    ok := true;
    var i := 0;
    while i < |program|
      invariant 0 <= i <= |program|
      invariant Run(Start, program) == Run(alu.Current(), program[i..])
      decreases |program| - i
    {
      assert program[i..][1..] == program[i + 1..];
      var stepped := alu.ApplyInstruction(program[i]);
      if !stepped {
        return false, alu;
      }
      i := i + 1;
    }
  }

  // ---------------------------------------------------------------------
  // The hand-simplified program: a base-26 stack of digits

  const Lookup1: seq<int> := [12, 7, 1, 2, 4, 15, 11, 5, 3, 9, 2, 3, 3, 11]
  const Lookup2: seq<int> := [0, 15, 12, 11, -5, 14, 15, -13, -16, -8, 15, -8, 0, -4]

  /** `process_no_div`: pushes `d + LOOKUP1[i]` onto the stack `z`. */
  function ProcessNoDiv(i: nat, d: int, z: int): (z': int)
    requires i < 14
  {
    z * 26 + d + Lookup1[i]
  }

  /** `process_with_div`: pops the top of the stack; when it does not
      match `d`, pushes `d + LOOKUP1[i]` in its place. */
  function ProcessWithDiv(i: nat, d: int, z: int): (z': int)
    requires i < 14
  {
    if RustRem(z, 26) + Lookup2[i] != d then RustDiv(z, 26) * 26 + d + Lookup1[i] else RustDiv(z, 26)
  }

  /** The push of digit `d` is exactly undone by the pop of digit `d'`
      when `d' == d + LOOKUP1[i] + LOOKUP2[j]`, and the stack stays a
      stack: popping after a push with another digit replaces the top. */
  lemma PushPop(i: nat, j: nat, d: int, d': int, z: int)
    requires i < 14 && j < 14 && z >= 0 && 0 <= d + Lookup1[i] < 26
    ensures d' == d + Lookup1[i] + Lookup2[j] ==> ProcessWithDiv(j, d', ProcessNoDiv(i, d, z)) == z
    ensures d' != d + Lookup1[i] + Lookup2[j] ==> ProcessWithDiv(j, d', ProcessNoDiv(i, d, z)) == ProcessNoDiv(j, d', z)
  {
    var t := ProcessNoDiv(i, d, z);
    RustIsEuclidean(t, 26);
    assert t == z * 26 + (d + Lookup1[i]);
    assert t / 26 == z && t % 26 == d + Lookup1[i];
  }

  /** `part1_fn2`: the fourteen digits through the stack. */
  function Part1Fn2(input: seq<int>): (r: int)
    requires |input| == 14
  {
    var t0 := ProcessNoDiv(0, input[0], 0);
    var t1 := ProcessNoDiv(1, input[1], t0);
    var t2 := ProcessNoDiv(2, input[2], t1);
    var t3 := ProcessNoDiv(3, input[3], t2);
    var t4 := ProcessWithDiv(4, input[4], t3);
    var t5 := ProcessNoDiv(5, input[5], t4);
    var t6 := ProcessNoDiv(6, input[6], t5);
    var t7 := ProcessWithDiv(7, input[7], t6);
    var t8 := ProcessWithDiv(8, input[8], t7);
    var t9 := ProcessWithDiv(9, input[9], t8);
    var t10 := ProcessNoDiv(10, input[10], t9);
    var t11 := ProcessWithDiv(11, input[11], t10);
    var t12 := ProcessWithDiv(12, input[12], t11);
    ProcessWithDiv(13, input[13], t12)
  }

  /** One digit of the generated code `part1_fn`: `z % 26` plus the
      offset compared with the digit, then `z` (or `z / 26` when the block
      divides) times 26 or 1, plus the digit and its addend when the
      comparison failed. */
  function Block(z: int, d: int, offset: int, addend: int, divides: bool): int {
    var top := RustRem(z, 26);
    var rest := if divides then RustDiv(z, 26) else z;
    var same := if top + offset == d then 1 else 0;
    var differs := if same == 0 then 1 else 0;
    rest * (25 * differs + 1) + (d + addend) * differs
  }

  /** `part1_fn`: the code the translation printed for the puzzle
      program, block by block with its constants. */
  function Part1Fn(input: seq<int>): int
    requires |input| == 14
  {
    var s0 := input[0] + 12;
    var s10 := Block(s0, input[1], 15, 7, false);
    var s20 := Block(s10, input[2], 12, 1, false);
    var s30 := Block(s20, input[3], 11, 2, false);
    var s41 := Block(s30, input[4], -5, 4, true);
    var s51 := Block(s41, input[5], 14, 15, false);
    var s61 := Block(s51, input[6], 15, 11, false);
    var s72 := Block(s61, input[7], -13, 5, true);
    var s83 := Block(s72, input[8], -16, 3, true);
    var s94 := Block(s83, input[9], -8, 9, true);
    var s104 := Block(s94, input[10], 15, 2, false);
    var s115 := Block(s104, input[11], -8, 3, true);
    var s125 := Block(s115, input[12], 0, 3, true);
    Block(s125, input[13], -4, 11, true)
  }

  /** A block that does not divide, on a non-negative stack and a digit,
      is a push: its offset is at least 10, so the comparison fails. */
  lemma BlockPush(z: int, d: int, i: nat)
    requires i < 14 && z >= 0 && 0 <= d <= 9 && Lookup2[i] >= 10
    ensures Block(z, d, Lookup2[i], Lookup1[i], false) == ProcessNoDiv(i, d, z)
    ensures ProcessNoDiv(i, d, z) >= 0
  {
    RustIsEuclidean(z, 26);
  }

  /** A block that divides is a pop (or a replace) on a non-negative
      stack. */
  lemma BlockPop(z: int, d: int, i: nat)
    requires i < 14 && z >= 0 && 0 <= d <= 9
    ensures Block(z, d, Lookup2[i], Lookup1[i], true) == ProcessWithDiv(i, d, z)
    ensures ProcessWithDiv(i, d, z) >= 0
  {
    RustIsEuclidean(z, 26);
  }

  /** The `equivalent` test for all digit inputs: the generated code and
      the stack version agree. */
  lemma Equivalent(input: seq<int>)
    requires |input| == 14 && Digits(input)
    ensures Part1Fn(input) == Part1Fn2(input)
  {
    var t3 := EquivalentFront(input);
    BlockPop(t3, input[4], 4);
    var t4 := ProcessWithDiv(4, input[4], t3);
    assert Block(t3, input[4], -5, 4, true) == t4;
    BlockPush(t4, input[5], 5);
    var t5 := ProcessNoDiv(5, input[5], t4);
    assert Block(t4, input[5], 14, 15, false) == t5;
    BlockPush(t5, input[6], 6);
    var t6 := ProcessNoDiv(6, input[6], t5);
    assert Block(t5, input[6], 15, 11, false) == t6;
    EquivalentBack(input, t6);
  }

  /** The first four digits of `Equivalent`. */
  lemma EquivalentFront(input: seq<int>) returns (t3: int)
    requires |input| == 14 && Digits(input)
    ensures t3 == ProcessNoDiv(3, input[3], ProcessNoDiv(2, input[2], ProcessNoDiv(1, input[1], ProcessNoDiv(0, input[0], 0))))
    ensures t3 >= 0
    ensures Block(Block(Block(input[0] + 12, input[1], 15, 7, false), input[2], 12, 1, false), input[3], 11, 2, false) == t3
  {
    var t0 := ProcessNoDiv(0, input[0], 0);
    assert input[0] + 12 == t0;
    BlockPush(t0, input[1], 1);
    var t1 := ProcessNoDiv(1, input[1], t0);
    BlockPush(t1, input[2], 2);
    var t2 := ProcessNoDiv(2, input[2], t1);
    BlockPush(t2, input[3], 3);
    t3 := ProcessNoDiv(3, input[3], t2);
  }

  /** The second half of `Equivalent`, from digit 7 on. */
  lemma EquivalentBack(input: seq<int>, t6: int)
    requires |input| == 14 && Digits(input) && t6 >= 0
    ensures Block(Block(Block(Block(Block(Block(Block(t6, input[7], -13, 5, true), input[8], -16, 3, true),
                  input[9], -8, 9, true), input[10], 15, 2, false), input[11], -8, 3, true), input[12], 0, 3, true),
                  input[13], -4, 11, true)
         == ProcessWithDiv(13, input[13], ProcessWithDiv(12, input[12], ProcessWithDiv(11, input[11],
              ProcessNoDiv(10, input[10], ProcessWithDiv(9, input[9], ProcessWithDiv(8, input[8],
              ProcessWithDiv(7, input[7], t6)))))))
  {
    BlockPop(t6, input[7], 7);
    var t7 := ProcessWithDiv(7, input[7], t6);
    BlockPop(t7, input[8], 8);
    var t8 := ProcessWithDiv(8, input[8], t7);
    BlockPop(t8, input[9], 9);
    var t9 := ProcessWithDiv(9, input[9], t8);
    BlockPush(t9, input[10], 10);
    var t10 := ProcessNoDiv(10, input[10], t9);
    BlockPop(t10, input[11], 11);
    var t11 := ProcessWithDiv(11, input[11], t10);
    BlockPop(t11, input[12], 12);
    var t12 := ProcessWithDiv(12, input[12], t11);
    BlockPop(t12, input[13], 13);
  }

  /** The pairings the search loops assert: which push each pop undoes,
      and the difference its digit must have. */
  lemma Pairings()
    ensures Lookup1[3] + Lookup2[4] == -3 && Lookup1[6] + Lookup2[7] == -2 && Lookup1[5] + Lookup2[8] == -1
    ensures Lookup1[2] + Lookup2[9] == -7 && Lookup1[10] + Lookup2[11] == -6 && Lookup1[1] + Lookup2[12] == 7
    ensures Lookup1[0] + Lookup2[13] == 8
  {
  }

  /** The digits the search loops build: every pop digit is its push digit
      plus the asserted difference. */
  predicate Paired(d: seq<int>)
    requires |d| == 14
  {
    d[4] == d[3] - 3 && d[7] == d[6] - 2 && d[8] == d[5] - 1 && d[9] == d[2] - 7
    && d[11] == d[10] - 6 && d[12] == d[1] + 7 && d[13] == d[0] + 8
  }

  /** Paired digits empty the stack: every pop undoes its push, so the
      search accepts the first paired candidate it builds. */
  lemma PairedAccepted(d: seq<int>)
    requires |d| == 14 && Digits(d) && Paired(d)
    ensures Part1Fn2(d) == 0
  {
    Pairings();
    var t0 := ProcessNoDiv(0, d[0], 0);
    var t1 := ProcessNoDiv(1, d[1], t0);
    var t2 := ProcessNoDiv(2, d[2], t1);
    var t3 := ProcessNoDiv(3, d[3], t2);
    PushPop(3, 4, d[3], d[4], t2);
    var t4 := ProcessWithDiv(4, d[4], t3);
    assert t4 == t2;
    var t5 := ProcessNoDiv(5, d[5], t4);
    var t6 := ProcessNoDiv(6, d[6], t5);
    PushPop(6, 7, d[6], d[7], t5);
    var t7 := ProcessWithDiv(7, d[7], t6);
    assert t7 == t5;
    PushPop(5, 8, d[5], d[8], t4);
    var t8 := ProcessWithDiv(8, d[8], t7);
    assert t8 == t2;
    PushPop(2, 9, d[2], d[9], t1);
    var t9 := ProcessWithDiv(9, d[9], t8);
    assert t9 == t1;
    var t10 := ProcessNoDiv(10, d[10], t9);
    PushPop(10, 11, d[10], d[11], t9);
    var t11 := ProcessWithDiv(11, d[11], t10);
    assert t11 == t1;
    PushPop(1, 12, d[1], d[12], t0);
    var t12 := ProcessWithDiv(12, d[12], t11);
    assert t12 == t0;
    PushPop(0, 13, d[0], d[13], 0);
  }

  /** The fold of `part1` and `part2` turning digits into the serial
      number: `acc * 10 + next`, most significant digit first. */
  function FromDigits(d: seq<int>): int {
    if d == [] then 0 else FromDigits(d[..|d| - 1]) * 10 + d[|d| - 1]
  }

  /** One more digit of a prefix. */
  lemma FromDigitsGrow(d: seq<int>, k: nat)
    requires k < |d|
    ensures FromDigits(d[..k + 1]) == FromDigits(d[..k]) * 10 + d[k]
  {
    assert d[..k + 1][..k] == d[..k];
  }

  /** The decimal digits of `n`, most significant first, no leading
      zeros: `to_string` followed by `c as u8 - b'0'` on each
      character. */
  function DecimalDigits(n: nat): (d: seq<int>)
    ensures |d| >= 1 && Digits(d)
    decreases n
  {
    if n < 10 then [n] else DecimalDigits(n / 10) + [n % 10]
  }

  /** Folding the decimal digits gives the number back. */
  lemma {:induction false} DecimalDigitsValue(n: nat)
    ensures FromDigits(DecimalDigits(n)) == n
    decreases n
  {
    if n >= 10 {
      var d := DecimalDigits(n);
      assert d[..|d| - 1] == DecimalDigits(n / 10);
      DecimalDigitsValue(n / 10);
    }
  }

  /** `to_digits`: the fourteen digits of a serial number; `None` where the
      source panics (a minus sign is not a digit, and the `try_into` an
      array of fourteen fails on any other length). */
  function ToDigits(serial: int): (r: Option<seq<int>>)
    ensures r.Some? <==> serial >= 0 && |DecimalDigits(serial)| == 14
    ensures r.Some? ==> |r.value| == 14 && Digits(r.value)
  {
    if serial < 0 then None
    else
      var d := DecimalDigits(serial);
      if |d| == 14 then Some(d) else None
  }

  /** `to_digits` and the fold are inverse: the digits fold back into the
      serial number. */
  lemma ToDigitsValue(serial: int)
    requires ToDigits(serial).Some?
    ensures FromDigits(ToDigits(serial).value) == serial
  {
    DecimalDigitsValue(serial);
  }

  /** The `equivalent` test itself: the serial number 13579246899999 has
      fourteen digits, on which the two programs agree. */
  lemma EquivalentTest()
    ensures ToDigits(13579246899999) == Some([1, 3, 5, 7, 9, 2, 4, 6, 8, 9, 9, 9, 9, 9])
    ensures Part1Fn(ToDigits(13579246899999).value) == Part1Fn2(ToDigits(13579246899999).value)
  {
    assert DecimalDigits(1) == [1];
    assert DecimalDigits(13) == [1, 3];
    assert DecimalDigits(135) == [1, 3, 5];
    assert DecimalDigits(1357) == [1, 3, 5, 7];
    assert DecimalDigits(13579) == [1, 3, 5, 7, 9];
    assert DecimalDigits(135792) == [1, 3, 5, 7, 9, 2];
    assert DecimalDigits(1357924) == [1, 3, 5, 7, 9, 2, 4];
    assert DecimalDigits(13579246) == [1, 3, 5, 7, 9, 2, 4, 6];
    assert DecimalDigits(135792468) == [1, 3, 5, 7, 9, 2, 4, 6, 8];
    assert DecimalDigits(1357924689) == [1, 3, 5, 7, 9, 2, 4, 6, 8, 9];
    assert DecimalDigits(13579246899) == [1, 3, 5, 7, 9, 2, 4, 6, 8, 9, 9];
    assert DecimalDigits(135792468999) == [1, 3, 5, 7, 9, 2, 4, 6, 8, 9, 9, 9];
    assert DecimalDigits(1357924689999) == [1, 3, 5, 7, 9, 2, 4, 6, 8, 9, 9, 9, 9];
    assert DecimalDigits(13579246899999) == [1, 3, 5, 7, 9, 2, 4, 6, 8, 9, 9, 9, 9, 9];
    Equivalent(ToDigits(13579246899999).value);
  }

  /** The digits the loop body of `part1` and `part2` builds from the
      digits its loops choose: `d0` is 1 and each pop digit is its push
      digit plus the asserted difference. */
  function Candidate(d1: int, d2: int, d3: int, d5: int, d6: int, d10: int): (d: seq<int>)
    ensures |d| == 14 && Paired(d) && d[0] == 1
  {
    [1, d1, d2, d3, d3 - 3, d5, d6, d6 - 2, d5 - 1, d2 - 7, d10, d10 - 6, d1 + 7, 1 + 8]
  }

  /** The ranges of the loops of `part1` and `part2`. */
  predicate InLoopRanges(d1: int, d2: int, d3: int, d5: int, d6: int, d10: int) {
    1 <= d1 < 3 && 8 <= d2 < 10 && 4 <= d3 < 10 && 2 <= d5 < 10 && 3 <= d6 < 10 && 7 <= d10 < 10
  }

  /** Every candidate of the loops is a serial number of digits which the
      stack and the generated code both accept, so `tmp == 0` holds and the
      loops return at their first candidate. */
  lemma CandidateAccepted(d1: int, d2: int, d3: int, d5: int, d6: int, d10: int)
    requires InLoopRanges(d1, d2, d3, d5, d6, d10)
    ensures Digits(Candidate(d1, d2, d3, d5, d6, d10))
    ensures Part1Fn2(Candidate(d1, d2, d3, d5, d6, d10)) == 0 && Part1Fn(Candidate(d1, d2, d3, d5, d6, d10)) == 0
  {
    var d := Candidate(d1, d2, d3, d5, d6, d10);
    assert Digits(d);
    PairedAccepted(d);
    Equivalent(d);
  }

  /** `part1`: the loops count down, so the first candidate takes the
      largest digit of every range. */
  function Part1(): (r: int)
    ensures r == FromDigits(Candidate(2, 9, 9, 9, 9, 9)) && Part1Fn2(Candidate(2, 9, 9, 9, 9, 9)) == 0
  {
    CandidateAccepted(2, 9, 9, 9, 9, 9);
    FromDigits(Candidate(2, 9, 9, 9, 9, 9))
  }

  /** `part2`: the loops count up, so the first candidate takes the
      smallest digit of every range. */
  function Part2(): (r: int)
    ensures r == FromDigits(Candidate(1, 8, 4, 2, 3, 7)) && Part1Fn2(Candidate(1, 8, 4, 2, 3, 7)) == 0
  {
    CandidateAccepted(1, 8, 4, 2, 3, 7);
    FromDigits(Candidate(1, 8, 4, 2, 3, 7))
  }

  /** The serial numbers of the two answers, digit by digit. */
  lemma SerialValue(d: seq<int>, n: int)
    requires |d| == 14
    requires n == (((((((((((((d[0] * 10 + d[1]) * 10 + d[2]) * 10 + d[3]) * 10 + d[4]) * 10 + d[5]) * 10 + d[6]) * 10
                 + d[7]) * 10 + d[8]) * 10 + d[9]) * 10 + d[10]) * 10 + d[11]) * 10 + d[12]) * 10 + d[13])
    ensures FromDigits(d) == n
  {
    assert d[..0] == [];
    FromDigitsGrow(d, 0); FromDigitsGrow(d, 1); FromDigitsGrow(d, 2); FromDigitsGrow(d, 3);
    FromDigitsGrow(d, 4); FromDigitsGrow(d, 5); FromDigitsGrow(d, 6); FromDigitsGrow(d, 7);
    FromDigitsGrow(d, 8); FromDigitsGrow(d, 9); FromDigitsGrow(d, 10); FromDigitsGrow(d, 11);
    FromDigitsGrow(d, 12); FromDigitsGrow(d, 13);
    assert d[..14] == d;
  }

  /** The `part1_full` test: 12996997829399. */
  lemma Part1Full()
    ensures Part1() == 12996997829399
  {
    SerialValue(Candidate(2, 9, 9, 9, 9, 9), 12996997829399);
  }

  /** The `part2_full` test: 11841231117189. */
  lemma Part2Full()
    ensures Part2() == 11841231117189
  {
    SerialValue(Candidate(1, 8, 4, 2, 3, 7), 11841231117189);
  }
}

/**
 * The first Intcode machine, of 2/src/main.rs and two/src/main.rs (the two
 * `compute` functions are the same): add, multiply and halt over a vector
 * of unsigned cells, every parameter an address. `ip` grows by four on
 * every pass and reading past the end panics, so a run always ends.
 */
module Alarm {
  import opened Wrappers

  const ADD: nat := 1
  const MULTIPLY: nat := 2
  const HCF: nat := 99

  /** Why `compute` panics: an index past the end of the vector, or an opcode other than 1, 2 and 99. */
  datatype Fault = OutOfRange(index: nat) | Unrecognized(opcode: nat)

  function Cell(mem: seq<nat>, i: nat): (r: Result<nat, Fault>)
    ensures r.Ok? <==> i < |mem|
    ensures r.Ok? ==> r.value == mem[i]
    ensures r.Err? ==> r.error == OutOfRange(i)
  {
    if i < |mem| then Ok(mem[i]) else Err(OutOfRange(i))
  }

  /** The sum or product an add or multiply instruction stores. */
  function Arith(op: nat, a: nat, b: nat): nat
    requires op == ADD || op == MULTIPLY
  {
    if op == ADD then a + b else a * b
  }

  /** `match op`: the operands are read only once the opcode is known. */
  function Operate(mem: seq<nat>, op: nat, ap: nat, bp: nat): (r: Result<nat, Fault>)
    ensures r.Ok? <==> (op == ADD || op == MULTIPLY) && ap < |mem| && bp < |mem|
    ensures r.Ok? ==> r.value == Arith(op, mem[ap], mem[bp])
  {
    if op == ADD || op == MULTIPLY then
      var a :- Cell(mem, ap);
      var b :- Cell(mem, bp);
      Ok(Arith(op, a, b))
    else Err(Unrecognized(op))
  }

  /** The three parameter cells of the instruction at `ip` are inside memory, and so are the cells they name. */
  predicate Executable(mem: seq<nat>, ip: nat) {
    ip + 3 < |mem| && mem[ip + 1] < |mem| && mem[ip + 2] < |mem| && mem[ip + 3] < |mem|
  }

  /**
   * One pass of the `while op != HCF` loop: the instruction at `ip`
   * executed. It succeeds exactly for an add or multiply whose cells are
   * all inside memory, and then changes only the cell its third parameter
   * names.
   */
  function Step(mem: seq<nat>, ip: nat): (r: Result<seq<nat>, Fault>)
    requires ip < |mem|
    ensures r.Ok? <==> (mem[ip] == ADD || mem[ip] == MULTIPLY) && Executable(mem, ip)
    ensures r.Ok? ==> |r.value| == |mem|
    ensures r.Ok? ==> r.value[mem[ip + 3]] == Arith(mem[ip], mem[mem[ip + 1]], mem[mem[ip + 2]])
    ensures r.Ok? ==> forall i :: 0 <= i < |mem| && i != mem[ip + 3] ==> r.value[i] == mem[i]
  {
    var ap :- Cell(mem, ip + 1);
    var bp :- Cell(mem, ip + 2);
    var rp :- Cell(mem, ip + 3);
    var x :- Operate(mem, mem[ip], ap, bp);
    if rp < |mem| then Ok(mem[rp := x]) else Err(OutOfRange(rp))
  }

  /** `compute` from instruction pointer `ip`: the memory once it reaches 99, or the panic on the way. */
  function Run(mem: seq<nat>, ip: nat): (r: Result<seq<nat>, Fault>)
    ensures r.Ok? ==> |r.value| == |mem|
    decreases |mem| - ip
  {
    var op :- Cell(mem, ip);
    if op == HCF then Ok(mem)
    else
      var next :- Step(mem, ip);
      Run(next, ip + 4)
  }

  /** A 99 at `ip` stops the run before anything executes, leaving memory as it is. */
  lemma HaltsAt(mem: seq<nat>, ip: nat)
    requires ip < |mem| && mem[ip] == HCF
    ensures Run(mem, ip) == Ok(mem)
  {
  }

  /**
   * An opcode other than 1, 2 and 99 stops the run with a panic. The three
   * parameter cells are read before the opcode is matched, so that panic is
   * the opcode's only when they lie inside memory.
   */
  lemma UnknownOpcodePanics(mem: seq<nat>, ip: nat)
    requires ip < |mem| && mem[ip] != ADD && mem[ip] != MULTIPLY && mem[ip] != HCF
    ensures Run(mem, ip).Err?
    ensures ip + 3 < |mem| ==> Run(mem, ip) == Err(Unrecognized(mem[ip]))
    ensures ip + 3 >= |mem| ==> Run(mem, ip).error.OutOfRange?
  {
  }

  /** A run that ends normally ends on a 99 reached from `ip` in whole instructions. */
  lemma {:induction false} EndsOnHalt(mem: seq<nat>, ip: nat)
    requires Run(mem, ip).Ok?
    ensures exists k: nat :: ip + 4 * k < |mem| && Run(mem, ip).value[ip + 4 * k] == HCF
    decreases |mem| - ip
  {
    if mem[ip] == HCF {
      assert ip + 4 * 0 < |mem| && Run(mem, ip).value[ip + 4 * 0] == HCF;
    } else {
      var next := Step(mem, ip).value;
      EndsOnHalt(next, ip + 4);
      var k: nat :| ip + 4 + 4 * k < |next| && Run(next, ip + 4).value[ip + 4 + 4 * k] == HCF;
      assert ip + 4 * (k + 1) == ip + 4 + 4 * k;
    }
  }

  /** `ops[i]`, or the panic of indexing past the end. */
  method Fetch(ops: array<nat>, i: nat) returns (r: Result<nat, Fault>)
    ensures r == Cell(ops[..], i)
  {
    if i < ops.Length {
      return Ok(ops[i]);
    }
    return Err(OutOfRange(i));
  }

  /** The body of the loop: read the three parameters, compute, store at the third. */
  method Execute(ops: array<nat>, ip: nat) returns (r: Result<(), Fault>)
    requires ip < ops.Length
    modifies ops
    ensures Step(old(ops[..]), ip).Ok? ==> r.Ok? && ops[..] == Step(old(ops[..]), ip).value
    ensures Step(old(ops[..]), ip).Err? ==> r == Err(Step(old(ops[..]), ip).error)
  {
    var ap :- Fetch(ops, ip + 1);
    var bp :- Fetch(ops, ip + 2);
    var rp :- Fetch(ops, ip + 3);
    var op := ops[ip];
    var x: nat;
    if op == ADD {
      var a :- Fetch(ops, ap);
      var b :- Fetch(ops, bp);
      x := a + b;
    } else if op == MULTIPLY {
      var a :- Fetch(ops, ap);
      var b :- Fetch(ops, bp);
      x := a * b;
    } else {
      return Err(Unrecognized(op));
    }
    if rp >= ops.Length {
      return Err(OutOfRange(rp));
    }
    ops[rp] := x;
    return Ok(());
  }

  /** `compute`: run from ip 0 until the cell at ip is 99, writing memory in place. */
  method Compute(ops: array<nat>) returns (r: Result<(), Fault>)
    modifies ops
    ensures Run(old(ops[..]), 0).Ok? ==> r.Ok? && ops[..] == Run(old(ops[..]), 0).value
    ensures Run(old(ops[..]), 0).Err? ==> r == Err(Run(old(ops[..]), 0).error)
  {
    var ip := 0;
    var op :- Fetch(ops, ip);
    while op != HCF
      invariant ip < ops.Length && op == ops[ip]
      invariant Run(old(ops[..]), 0) == Run(ops[..], ip)
      decreases ops.Length - ip
    {
      var _ :- Execute(ops, ip);
      ip := ip + 4;
      op :- Fetch(ops, ip);
    }
    return Ok(());
  }

  /**
   * The patch-then-run sequence of `main` in two/src/main.rs: cell 1 set to
   * 12 and cell 2 to 2 (the "1202" state), then `compute`. Memory shorter
   * than three cells panics on the patch.
   */
  method Restore1202(ops: array<nat>) returns (r: Result<(), Fault>)
    modifies ops
    ensures ops.Length < 3 ==> r == Err(OutOfRange(if ops.Length < 2 then 1 else 2))
    ensures ops.Length >= 3 ==> var patched := old(ops[..])[1 := 12][2 := 2];
      (Run(patched, 0).Ok? ==> r.Ok? && ops[..] == Run(patched, 0).value) &&
      (Run(patched, 0).Err? ==> r == Err(Run(patched, 0).error))
  {
    if ops.Length < 2 {
      return Err(OutOfRange(1));
    }
    ops[1] := 12;
    if ops.Length < 3 {
      return Err(OutOfRange(2));
    }
    ops[2] := 2;
    r := Compute(ops);
  }
}

/** Pure reference semantics of the Genesys virtual machine (vm.go).

    A machine has 1000 memory cells and 10 registers, all unsigned 16-bit,
    an unsigned 16-bit instruction pointer, an unsigned 64-bit instruction
    counter and budget, and a running flag. Every cell is both data and, when
    the pointer lands on it, an instruction whose three decimal digits are
    the opcode family and two operands.

    `Transition` is one `Step` of the machine on a value, `Run` is `Execute`.
    The class in machine.dfy is proved to behave exactly as these functions.
 */
module Genesys {

  const MEMORY_SIZE: nat := 1000
  const REGISTER_COUNT: nat := 10
  const U64_MAX: int := 0xFFFF_FFFF_FFFF_FFFF

  /** Go's uint16: the type of memory cells, registers and the pointer. */
  newtype u16 = x: int | 0 <= x < 0x1_0000

  /** Go's uint64: the type of the instruction counter and the budget. */
  newtype u64 = x: int | 0 <= x <= 0xFFFF_FFFF_FFFF_FFFF

  type Memory = m: seq<u16> | |m| == MEMORY_SIZE witness seq(MEMORY_SIZE, _ => 0)
  type Registers = r: seq<u16> | |r| == REGISTER_COUNT witness seq(REGISTER_COUNT, _ => 0)

  datatype Option<T> = None | Some(value: T)

  /** The five reasons for which the machine stops with an error. */
  datatype FaultKind =
    | ExecutionTimeout
    | PointerOutOfRange
    | InvalidInstruction
    | InvalidOperands
    | InvalidMemoryReference

  /** What a fault reports besides its kind: the registers, the pointer, the
      counter, and the instruction under the pointer when the pointer is a
      memory index (None stands for "INVALID IP"). */
  datatype Snapshot = Snapshot(regs: Registers, ip: u16, ic: u64, instruction: Option<u16>)

  /** The outcome of one step or of a whole run. */
  datatype StepResult = Ok | Fault(kind: FaultKind, snapshot: Snapshot)

  /** The fields of the GenesysVM struct. */
  datatype State = State(memory: Memory, regs: Registers, ip: u16, ic: u64, ilimit: u64, running: bool)

  /** The three decimal digits of an instruction: family, first and second operand. */
  datatype Digits = Digits(d1: nat, d2: nat, d3: nat)

  /** Reduction of a natural number to 16 bits, as Go's uint16 arithmetic does. */
  function Wrap16(x: nat): u16
  {
    (x % 0x1_0000) as u16
  }

  /** Go's `ic++` on a uint64. */
  function Inc64(x: u64): u64
  {
    if x as int == U64_MAX then 0 else x + 1
  }

  /** NewGenesysVM: the image is copied to the start of a zeroed memory; an
      image that does not fit is refused (None). */
  function Load(code: seq<u16>, limit: u64): (r: Option<State>)
    ensures r.Some? <==> |code| <= MEMORY_SIZE
    ensures r.Some? ==>
      forall i :: 0 <= i < MEMORY_SIZE ==> r.value.memory[i] == if i < |code| then code[i] else 0
    ensures r.Some? ==> forall k :: 0 <= k < REGISTER_COUNT ==> r.value.regs[k] == 0
    ensures r.Some? ==> r.value.ip == 0 && r.value.ic == 0 && r.value.ilimit == limit && r.value.running
  {
    if |code| > MEMORY_SIZE then None
    else Some(State(code + seq(MEMORY_SIZE - |code|, _ => 0), seq(REGISTER_COUNT, _ => 0), 0, 0, limit, true))
  }

  /** Splits an instruction in the decodable range into its decimal digits. */
  function Decode(instruction: u16): (d: Digits)
    requires instruction <= 999
    ensures d.d1 <= 9 && d.d2 <= 9 && d.d3 <= 9
    ensures 100 * d.d1 + 10 * d.d2 + d.d3 == instruction as int
  {
    var v := instruction as int;
    Digits(v / 100, (v / 10) % 10, v % 10)
  }

  /** The snapshot a fault reports for state s. */
  function SnapshotOf(s: State): Snapshot
  {
    Snapshot(s.regs, s.ip, s.ic, if s.ip < MEMORY_SIZE as u16 then Some(s.memory[s.ip]) else None)
  }

  /** GenesysVM.Panic: stops the machine and reports a fault of the given kind. */
  function Panic(s: State, kind: FaultKind): (r: (State, StepResult))
    ensures !r.0.running
    ensures r.0.memory == s.memory && r.0.regs == s.regs && r.0.ip == s.ip
    ensures r.0.ic == s.ic && r.0.ilimit == s.ilimit
    ensures r.1.Fault? && r.1.kind == kind
    ensures r.1.snapshot.regs == s.regs && r.1.snapshot.ip == s.ip && r.1.snapshot.ic == s.ic
    ensures r.1.snapshot.instruction.Some? <==> s.ip as int < MEMORY_SIZE
    ensures r.1.snapshot.instruction.Some? ==> r.1.snapshot.instruction.value == s.memory[s.ip]
  {
    (s.(running := false), Fault(kind, SnapshotOf(s)))
  }

  /** GenesysVM.Step on a value: the two guards, the count, the fetch, then
      the opcode family. */
  function Transition(s: State): (r: (State, StepResult))
    ensures r.0.ilimit == s.ilimit
    ensures r.0.ic == if s.ic <= s.ilimit && s.ip <= 999 then Inc64(s.ic) else s.ic
    ensures r.1.Fault? ==> !r.0.running && r.1.snapshot == SnapshotOf(r.0)
    ensures r.1.Ok? && s.running && !r.0.running ==> r.0.ip == s.ip <= 999 && s.memory[s.ip] == 100
    ensures r.1.Ok? && r.0.running ==> s.running
  {
    if s.ic > s.ilimit then Panic(s, ExecutionTimeout)
    else if s.ip > 999 then Panic(s, PointerOutOfRange)
    else
      var counted := s.(ic := Inc64(s.ic));
      var instruction := counted.memory[counted.ip];
      if instruction > 999 then Panic(counted, InvalidInstruction)
      else Dispatch(counted, instruction)
  }

  /** The `switch d1` of GenesysVM.Step. Families 3, 4 and 6 compute in 16
      bits before reducing modulo 1000; family 7 multiplies in a wide integer.
      Decode yields d1 <= 9, so Go's `default` case cannot be reached and the
      last branch is family 0. */
  function Dispatch(s: State, instruction: u16): (r: (State, StepResult))
    requires s.ip <= 999 && instruction <= 999
    ensures r.0.ic == s.ic && r.0.ilimit == s.ilimit
    ensures r.1.Fault? ==> r.0 == s.(running := false) && r.1.snapshot == SnapshotOf(s)
    ensures r.1.Fault? ==> r.1.kind in {InvalidOperands, InvalidMemoryReference}
    ensures r.1.Ok? && instruction / 100 == 1 ==> instruction == 100 && r.0 == s.(running := false)
    ensures r.1.Ok? && instruction / 100 != 1 ==> r.0.running == s.running
  {
    var d := Decode(instruction);
    var next := s.ip + 1;
    if d.d1 == 1 then
      if instruction == 100 then (s.(running := false), Ok) else Panic(s, InvalidOperands)
    else if d.d1 == 2 then
      (s.(regs := s.regs[d.d2 := d.d3 as u16], ip := next), Ok)
    else if d.d1 == 3 then
      (s.(regs := s.regs[d.d2 := Wrap16(s.regs[d.d2] as int + d.d3) % 1000], ip := next), Ok)
    else if d.d1 == 4 then
      (s.(regs := s.regs[d.d2 := Wrap16(s.regs[d.d2] as int * d.d3) % 1000], ip := next), Ok)
    else if d.d1 == 5 then
      (s.(regs := s.regs[d.d2 := s.regs[d.d3]], ip := next), Ok)
    else if d.d1 == 6 then
      (s.(regs := s.regs[d.d2 := Wrap16(s.regs[d.d2] as int + s.regs[d.d3] as int) % 1000], ip := next), Ok)
    else if d.d1 == 7 then
      (s.(regs := s.regs[d.d2 := ((s.regs[d.d2] as int * s.regs[d.d3] as int) % 1000) as u16], ip := next), Ok)
    else if d.d1 == 8 then
      var addr := s.regs[d.d3];
      if addr > 999 then Panic(s, InvalidMemoryReference)
      else (s.(regs := s.regs[d.d2 := s.memory[addr]], ip := next), Ok)
    else if d.d1 == 9 then
      var addr := s.regs[d.d3];
      if addr > 999 then Panic(s, InvalidMemoryReference)
      else (s.(memory := s.memory[addr := s.regs[d.d2]], ip := next), Ok)
    else
      if s.regs[d.d3] == 0 then (s.(ip := next), Ok)
      else (s.(ip := s.regs[d.d2]), Ok)
  }

  /** Instructions that may still execute before the budget check fails. */
  function Fuel(s: State): nat
  {
    if s.ic <= s.ilimit then (s.ilimit - s.ic) as int + 1 else 0
  }

  /** GenesysVM.Execute on a value: steps while running; the first fault is
      the result, otherwise Ok. */
  function Run(s: State): (r: (State, StepResult))
    requires s.ilimit as int < U64_MAX
    ensures !r.0.running && r.0.ilimit == s.ilimit
    ensures r.1.Ok? && s.running ==> r.0.ip <= 999 && r.0.memory[r.0.ip] == 100
    ensures r.1.Fault? ==> r.1.snapshot == SnapshotOf(r.0)
    ensures !s.running ==> r == (s, Ok)
    decreases Fuel(s)
  {
    if !s.running then (s, Ok)
    else
      var t := Transition(s);
      if t.1.Fault? then t else Run(t.0)
  }
}

/** Concrete runs of the Genesys machine: the scenarios of vm_test.go, the
    budget rule on a program that never halts, and the consequences of
    memory cells that hold more than 999. */
module GenesysExamples {
  import opened Genesys
  import opened GenesysProperties
  import opened Machine

  /** The machine NewGenesysVM builds for an image that fits. */
  function Boot(code: seq<u16>, limit: u64): (s: State)
    requires |code| <= MEMORY_SIZE
    ensures s.ip == 0 && s.ic == 0 && s.ilimit == limit && s.running
    ensures forall i :: 0 <= i < |code| ==> s.memory[i] == code[i]
  {
    Load(code, limit).value
  }

  // ------------------------------------------------------------ empty image

  /** From a zero cell under the pointer onwards, with register 0 at zero,
      every cell decodes as a jump that does not jump: the pointer walks to
      1000, one count per cell, and the next step faults on the pointer. */
  lemma {:induction false} ZeroCellsWalkToEnd(s: State)
    requires s.ilimit as int < U64_MAX && s.running
    requires s.ip <= 1000 && s.regs[0] == 0
    requires forall i :: s.ip as int <= i < MEMORY_SIZE ==> s.memory[i] == 0
    requires s.ic as int + (1000 - s.ip as int) <= s.ilimit as int
    ensures Run(s).1.Fault? && Run(s).1.kind == PointerOutOfRange
    ensures Run(s).0.ip == 1000 && Run(s).0.ic as int == s.ic as int + (1000 - s.ip as int)
    decreases 1000 - s.ip
  {
    if s.ip < 1000 {
      var t := s.(ic := s.ic + 1, ip := s.ip + 1);
      assert Transition(s) == (t, Ok);
      ZeroCellsWalkToEnd(t);
    }
  }

  /** An empty image with budget 2000 faults on the pointer with counter
      and pointer both at 1000. */
  lemma EmptyImageStopsAt1000()
    ensures var r := Run(Boot([], 2000));
      r.1.Fault? && r.1.kind == PointerOutOfRange && r.0.ic == 1000 && r.0.ip == 1000
  {
    ZeroCellsWalkToEnd(Boot([], 2000));
  }

  // ---------------------------------------------------------- single steps

  /** [100] halts after one instruction with the pointer still at 0. */
  lemma HaltAtOnce()
    ensures var r := Run(Boot([100], 1000));
      r.1.Ok? && !r.0.running && r.0.ic == 1 && r.0.ip == 0
  {
    var s := Boot([100], 1000);
    assert Transition(s) == (s.(ic := 1, running := false), Ok);
  }

  /** [123] is a halt with operands: it faults after one count. */
  lemma HaltWithOperandsFaults()
    ensures var r := Run(Boot([123], 2000));
      r.1.Fault? && r.1.kind == InvalidOperands && r.0.ic == 1 && r.0.ip == 0
  {
    var s := Boot([123], 2000);
    assert Transition(s).0 == s.(ic := 1, running := false);
  }

  /** [9999] cannot be decoded: it faults with the count already made and
      reports the offending value. */
  lemma UndecodableCellFaults()
    ensures var r := Run(Boot([9999], 2000));
      && r.1.Fault? && r.1.kind == InvalidInstruction && r.0.ic == 1
      && r.1.snapshot.instruction == Some(9999)
  {
    var s := Boot([9999], 2000);
    assert Transition(s).0 == s.(ic := 1, running := false);
  }

  /** Adding 9 to 997 (instruction 329) wraps to 6. */
  lemma AddImmediateReducesModulo1000(s: State)
    requires Fetches(s) && s.memory[s.ip] == 329 && s.regs[2] == 997
    ensures Transition(s).0.regs[2] == 6
  {
  }

  /** Multiplying 999 by 999 (instruction 798) leaves 1. */
  lemma MultiplyRegistersWide(s: State)
    requires Fetches(s) && s.memory[s.ip] == 798 && s.regs[9] == 999 && s.regs[8] == 999
    ensures Transition(s).0.regs[9] == 1
  {
  }

  // ------------------------------------------------------------- whole runs

  /** [356, 343, 359, 329, 100] halts after five instructions. */
  lemma AddSampleHalts()
    ensures var r := Run(Boot([356, 343, 359, 329, 100], 1000));
      && r.1.Ok? && r.0.ic == 5 && r.0.ip == 4
      && r.0.regs[5] == 15 && r.0.regs[4] == 3 && r.0.regs[2] == 9
  {
    var s0 := Boot([356, 343, 359, 329, 100], 1000);
    var s1 := s0.(regs := s0.regs[5 := 6], ip := 1, ic := 1);
    var s2 := s1.(regs := s1.regs[4 := 3], ip := 2, ic := 2);
    var s3 := s2.(regs := s2.regs[5 := 15], ip := 3, ic := 3);
    var s4 := s3.(regs := s3.regs[2 := 9], ip := 4, ic := 4);
    assert Transition(s0) == (s1, Ok);
    assert Transition(s1) == (s2, Ok);
    assert Transition(s2) == (s3, Ok);
    assert Transition(s3) == (s4, Ok);
    assert Transition(s4) == (s4.(ic := 5, running := false), Ok);
  }

  /** The jump scenario: [11, 0, 9, 100] with register 1 at 2 and register 9
      at zero jumps from 0 to 2, falls through to 3 and halts there, three
      counts. */
  lemma JumpScenario(regs: Registers)
    requires regs[1] == 2 && regs[9] == 0
    ensures var r := Run(Boot([11, 0, 9, 100], 1000).(regs := regs));
      r.1.Ok? && r.0.ip == 3 && r.0.ic == 3
  {
    var s0 := Boot([11, 0, 9, 100], 1000).(regs := regs);
    var s1 := s0.(ip := 2, ic := 1);
    var s2 := s1.(ip := 3, ic := 2);
    assert Transition(s0) == (s1, Ok);
    RunOnStep(s0);
    assert Transition(s1) == (s2, Ok);
    RunOnStep(s1);
    assert Transition(s2) == (s2.(ic := 3, running := false), Ok);
  }

  /** The first sample program of the repository. */
  const SAMPLE1: seq<u16> := [299, 492, 495, 399, 492, 495, 399, 283, 279, 689, 78, 100, 0, 0, 0]

  /** Memory that starts with SAMPLE1. */
  ghost predicate HoldsSample1(m: Memory)
  {
    forall i :: 0 <= i < |SAMPLE1| ==> m[i] == SAMPLE1[i]
  }

  /** Register 9 after each of the first seven instructions of SAMPLE1. */
  function Scaled(k: nat): u16
    requires k <= 7
  {
    [0, 9, 18, 90, 99, 198, 990, 999][k]
  }

  /** The loop of cells 9 and 10: cell 9 adds register 9 (999) to register
      8, a decrement modulo 1000; cell 10 jumps back to register 7's value, 9,
      while register 8 is non-zero; then cell 11 halts. Two counts per pass
      and one to halt. */
  lemma {:induction false} Sample1Countdown(s: State, c: u16)
    requires s.ilimit as int < U64_MAX && s.running && HoldsSample1(s.memory)
    requires s.ip == 9 && s.regs[7] == 9 && s.regs[9] == 999 && s.regs[8] == c
    requires 1 <= c <= 999 && s.ic as int + 2 * c as int <= s.ilimit as int
    ensures Run(s).1.Ok? && Run(s).0.ic as int == s.ic as int + 2 * c as int + 1
    decreases c
  {
    assert s.memory[9] == 689 && s.memory[10] == 78 && s.memory[11] == 100;
    assert Decode(689) == Digits(6, 8, 9);
    assert Decode(78) == Digits(0, 7, 8);
    assert Wrap16(c as int + 999) % 1000 == c - 1;
    var t := s.(regs := s.regs[8 := c - 1], ip := 10, ic := s.ic + 1);
    assert Transition(s) == (t, Ok);
    if c > 1 {
      var t' := t.(ip := 9, ic := s.ic + 2);
      assert Transition(t) == (t', Ok);
      Sample1Countdown(t', c - 1);
    } else {
      var u := t.(ip := 11, ic := s.ic + 2);
      assert Transition(t) == (u, Ok);
      assert Transition(u) == (u.(ic := s.ic + 3, running := false), Ok);
      RunOnStep(s);
      RunOnStep(t);
    }
  }

  /** Cells 7 and 8 set the counter register 8 to 3 and the jump target
      register 7 to 9; the countdown then halts at 16 counts. */
  lemma Sample1Setup(s: State)
    requires s.ilimit == 1000 && s.running && HoldsSample1(s.memory)
    requires s.ip == 7 && s.ic == 7 && s.regs[9] == 999
    ensures Run(s).1.Ok? && Run(s).0.ic == 16
  {
    assert s.memory[7] == 283 && s.memory[8] == 279;
    assert Decode(283) == Digits(2, 8, 3);
    assert Decode(279) == Digits(2, 7, 9);
    var t := s.(regs := s.regs[8 := 3], ip := 8, ic := 8);
    var u := t.(regs := t.regs[7 := 9], ip := 9, ic := 9);
    assert Transition(s) == (t, Ok);
    assert Transition(t) == (u, Ok);
    Sample1Countdown(u, 3);
  }

  /** The first seven cells load, multiply and add into register 9 until it
      holds 999. */
  lemma {:induction false} Sample1Prefix(s: State, k: nat)
    requires k <= 7 && s.ilimit == 1000 && s.running && HoldsSample1(s.memory)
    requires s.ip as int == k && s.ic as int == k && s.regs[9] == Scaled(k)
    ensures Run(s).1.Ok? && Run(s).0.ic == 16
    decreases 7 - k
  {
    if k == 7 {
      Sample1Setup(s);
    } else {
      var t := s.(regs := s.regs[9 := Scaled(k + 1)], ip := s.ip + 1, ic := s.ic + 1);
      assert s.memory[k] == SAMPLE1[k];
      if k == 0 {
        assert Decode(299) == Digits(2, 9, 9);
      } else if k == 1 || k == 4 {
        assert Decode(492) == Digits(4, 9, 2);
      } else if k == 2 || k == 5 {
        assert Decode(495) == Digits(4, 9, 5);
      } else {
        assert Decode(399) == Digits(3, 9, 9);
      }
      assert Transition(s) == (t, Ok);
      Sample1Prefix(t, k + 1);
    }
  }

  /** The first sample program halts after 16 instructions. */
  lemma Sample1CountsSixteen()
    ensures var r := Run(Boot(SAMPLE1, 1000)); r.1.Ok? && !r.0.running && r.0.ic == 16
  {
    var s := Boot(SAMPLE1, 1000);
    assert s.regs[9] == 0;
    Sample1Prefix(s, 0);
  }

  // ------------------------------------------------------------- the budget

  /** The loop [201, 10]: register 0 becomes 1, then the jump on register 0
      goes back to register 1's value, 0, forever. Each step counts one, so
      the budget stops it with the counter at budget + 1. */
  lemma {:induction false} EndlessLoopStopsAtBudgetPlusOne(s: State)
    requires s.ilimit as int < U64_MAX && s.running
    requires s.memory[0] == 201 && s.memory[1] == 10 && s.regs[1] == 0
    requires s.ip == 0 || (s.ip == 1 && s.regs[0] == 1)
    requires s.ic as int <= s.ilimit as int + 1
    ensures Run(s).1.Fault? && Run(s).1.kind == ExecutionTimeout
    ensures Run(s).0.ic as int == s.ilimit as int + 1
    decreases Fuel(s)
  {
    if s.ic <= s.ilimit {
      var t := if s.ip == 0 then s.(regs := s.regs[0 := 1], ip := 1, ic := s.ic + 1)
               else s.(ip := 0, ic := s.ic + 1);
      assert Transition(s) == (t, Ok);
      EndlessLoopStopsAtBudgetPlusOne(t);
    }
  }

  /** Under any budget B below the largest, a program that never halts
      executes exactly B + 1 instructions and then times out. */
  lemma BudgetAllowsOneExtraInstruction(budget: u64)
    requires budget as int < U64_MAX
    ensures var r := Run(Boot([201, 10], budget));
      r.1.Fault? && r.1.kind == ExecutionTimeout && r.0.ic as int == budget as int + 1
  {
    EndlessLoopStopsAtBudgetPlusOne(Boot([201, 10], budget));
  }

  // ------------------------------------------ cells holding more than 999

  /** Nothing clamps memory: [202, 810, 9999] loads 9999 into register 1
      before the undecodable cell stops the machine. */
  lemma RegisterCanExceed999()
    ensures var r := Run(Boot([202, 810, 9999], 1000));
      r.1.Fault? && r.1.kind == InvalidInstruction && r.0.regs[1] == 9999
  {
    var s0 := Boot([202, 810, 9999], 1000);
    var s1 := s0.(regs := s0.regs[0 := 2], ip := 1, ic := 1);
    var s2 := s1.(regs := s1.regs[1 := 9999], ip := 2, ic := 2);
    assert Transition(s0) == (s1, Ok);
    assert Transition(s1) == (s2, Ok);
  }

  /** A register holding 65535 plus 1 wraps in 16 bits to 0 before the
      reduction modulo 1000, so the result is 0, not 65536 mod 1000 = 536. */
  lemma SixteenBitWrapIsVisible()
    ensures var r := Run(Boot([204, 810, 311, 100, 65535], 1000));
      r.1.Ok? && r.0.regs[1] == 0 && r.0.ic == 4
  {
    var s0 := Boot([204, 810, 311, 100, 65535], 1000);
    var s1 := s0.(regs := s0.regs[0 := 4], ip := 1, ic := 1);
    var s2 := s1.(regs := s1.regs[1 := 65535], ip := 2, ic := 2);
    var s3 := s2.(regs := s2.regs[1 := 0], ip := 3, ic := 3);
    assert Transition(s0) == (s1, Ok);
    assert Transition(s1) == (s2, Ok);
    assert Transition(s2) == (s3, Ok);
    assert Transition(s3) == (s3.(ic := 4, running := false), Ok);
  }

  // ---------------------------------------------------- through the class

  /** Test_Errors, first case, stated on the class: an empty image with
      budget 2000 fails with a pointer fault, the counter and pointer both
      at 1000, and the machine stopped. */
  method EmptyImageOnTheClass() returns (r: StepResult, ic: u64, ip: u16, running: bool)
    ensures r.Fault? && r.kind == PointerOutOfRange
    ensures ic == 1000 && ip == 1000 && !running
  {
    var vm := new GenesysVM([], 2000);
    r := vm.Execute();
    EmptyImageStopsAt1000();
    var stats := vm.GetStats();
    ic, running := stats.0, stats.1;
    ip := vm.ip;
  }
}

/** Properties of one step and of a whole run of the Genesys machine, stated
    on the pure semantics that the class GenesysVM is proved to follow. */
module GenesysProperties {
  import opened Genesys

  /** Both guards of a step pass and the cell under the pointer decodes. */
  predicate Fetches(s: State)
  {
    s.ic <= s.ilimit && s.ip <= 999 && s.memory[s.ip] <= 999
  }

  /** The digits of the instruction under the pointer. */
  function Current(s: State): Digits
    requires Fetches(s)
  {
    Decode(s.memory[s.ip])
  }

  /** s once the instruction under its pointer has been counted. */
  function Counted(s: State): State
  {
    s.(ic := Inc64(s.ic))
  }

  /** Every memory cell and every register holds at most 999. */
  ghost predicate InRange(s: State)
  {
    && (forall i :: 0 <= i < MEMORY_SIZE ==> s.memory[i] <= 999)
    && (forall k :: 0 <= k < REGISTER_COUNT ==> s.regs[k] <= 999)
  }

  // ---------------------------------------------------------------- decoding

  /** The digits Decode returns are the only decimal digits of the instruction. */
  lemma DecodeIsDecimalDigits(instruction: u16, d: Digits)
    requires instruction <= 999 && d.d1 <= 9 && d.d2 <= 9 && d.d3 <= 9
    ensures Decode(instruction) == d <==> 100 * d.d1 + 10 * d.d2 + d.d3 == instruction as int
  {
    var e := Decode(instruction);
    if 100 * d.d1 + 10 * d.d2 + d.d3 == instruction as int {
      var low, elow := 10 * d.d2 + d.d3, 10 * e.d2 + e.d3;
      assert 100 * (d.d1 - e.d1) == elow - low;
      assert d.d1 == e.d1;
      assert 10 * (d.d2 - e.d2) == e.d3 - d.d3;
    }
  }

  // ------------------------------------------------------ order of the checks

  /** A step over budget faults before anything else and changes nothing but
      the running flag; the counter is not incremented. */
  lemma BudgetCheckedFirst(s: State)
    requires s.ic > s.ilimit
    ensures Transition(s) == (s.(running := false), Fault(ExecutionTimeout, SnapshotOf(s)))
  {
  }

  /** Within budget, a pointer past the memory faults before the count, and
      the fault reports no instruction. */
  lemma PointerCheckedSecond(s: State)
    requires s.ic <= s.ilimit && s.ip > 999
    ensures Transition(s) == (s.(running := false), Fault(PointerOutOfRange, SnapshotOf(s)))
    ensures SnapshotOf(s).instruction == None
  {
  }

  /** Once both guards pass the counter goes up by one, and a cell above 999
      then faults with the increment already made. */
  lemma CountedBeforeFetch(s: State)
    requires s.ic <= s.ilimit && s.ip <= 999
    ensures Transition(s).0.ic == Inc64(s.ic)
    ensures s.ic as int < U64_MAX ==> Transition(s).0.ic as int == s.ic as int + 1
    ensures s.memory[s.ip] > 999 ==>
      Transition(s) == (Counted(s).(running := false), Fault(InvalidInstruction, SnapshotOf(Counted(s))))
  {
  }

  // ------------------------------------------------------------- the families

  /** Family 1: only the value 100 halts (pointer unchanged, counter one
      higher); any other value of the family faults with the same state. */
  lemma HaltOnlyOn100(s: State)
    requires Fetches(s) && Current(s).d1 == 1
    ensures Transition(s).0 == Counted(s).(running := false)
    ensures Transition(s).1.Ok? <==> s.memory[s.ip] == 100
    ensures Transition(s).1.Fault? ==> Transition(s).1.kind == InvalidOperands
  {
  }

  /** Families 2 to 8, when they succeed, write register d2 and nothing else,
      and move the pointer to the next cell. Only family 8 can fail. The
      moves write the immediate (2), register d3 (5) or the cell register d3
      addresses (8). */
  lemma RegisterFamiliesWriteOnlyD2(s: State)
    requires Fetches(s) && 2 <= Current(s).d1 <= 8
    ensures Current(s).d1 < 8 ==> Transition(s).1.Ok?
    ensures Transition(s).1.Ok? ==>
      var t, d := Transition(s).0, Current(s);
      && t.memory == s.memory && t.ip == s.ip + 1 && t.ic == Inc64(s.ic)
      && t.running == s.running && t.ilimit == s.ilimit
      && t.regs == s.regs[d.d2 := t.regs[d.d2]]
    ensures
      var t, d := Transition(s).0, Current(s);
      && (d.d1 == 2 ==> t.regs[d.d2] as int == d.d3)
      && (d.d1 == 5 ==> t.regs[d.d2] == s.regs[d.d3])
      && (d.d1 == 8 && s.regs[d.d3] <= 999 ==> t.regs[d.d2] == s.memory[s.regs[d.d3]])
  {
  }

  /** Family 9, when it succeeds, writes register d2 into the cell addressed
      by register d3, and nothing else. */
  lemma StoreWritesOnlyAddressedCell(s: State)
    requires Fetches(s) && Current(s).d1 == 9 && s.regs[Current(s).d3] <= 999
    ensures Transition(s).1.Ok?
    ensures
      var t, d := Transition(s).0, Current(s);
      t == Counted(s).(memory := s.memory[s.regs[d.d3] := s.regs[d.d2]], ip := s.ip + 1)
  {
  }

  /** Families 8 and 9 fault exactly when the address register holds more
      than 999, and then leave registers, memory and pointer as they were. */
  lemma IndirectAccessFaultsOutOfRange(s: State)
    requires Fetches(s) && 8 <= Current(s).d1
    ensures Transition(s).1.Fault? <==> s.regs[Current(s).d3] > 999
    ensures Transition(s).1.Fault? ==>
      && Transition(s).1.kind == InvalidMemoryReference
      && Transition(s).0 == Counted(s).(running := false)
  {
  }

  /** Families 3, 4, 6 and 7 always leave a value below 1000 in register d2. */
  lemma ArithmeticResultBelow1000(s: State)
    requires Fetches(s) && Current(s).d1 in {3, 4, 6, 7}
    ensures Transition(s).1.Ok? && Transition(s).0.regs[Current(s).d2] < 1000
  {
  }

  /** Family 7 multiplies in a wide integer: the result is the full product
      modulo 1000, whatever the registers hold (999 * 999 gives 1). */
  lemma WideMultiplyFamily7(s: State)
    requires Fetches(s) && Current(s).d1 == 7
    ensures
      var d := Current(s);
      Transition(s).0.regs[d.d2] as int == (s.regs[d.d2] as int * s.regs[d.d3] as int) % 1000
  {
  }

  /** Families 3, 4 and 6 compute the sum or product in Go's uint16, so
      modulo 65536, and only then reduce it modulo 1000; this holds for any
      register values. */
  lemma SixteenBitArithmetic(s: State)
    requires Fetches(s) && Current(s).d1 in {3, 4, 6}
    ensures
      var d := Current(s);
      var a, b := s.regs[d.d2] as int, s.regs[d.d3] as int;
      Transition(s).0.regs[d.d2] as int ==
        if d.d1 == 3 then ((a + d.d3) % 0x1_0000) % 1000
        else if d.d1 == 4 then ((a * d.d3) % 0x1_0000) % 1000
        else ((a + b) % 0x1_0000) % 1000
  {
  }

  /** While register d2 holds at most 999, family 3 does not wrap: it
      computes the exact sum with the immediate d3, modulo 1000. */
  lemma NoWrapAddImmediate(s: State)
    requires Fetches(s) && Current(s).d1 == 3 && s.regs[Current(s).d2] <= 999
    ensures
      var d := Current(s);
      Transition(s).0.regs[d.d2] as int == (s.regs[d.d2] as int + d.d3) % 1000
  {
    var d := Current(s);
    WrapBelow16Bits(s.regs[d.d2] as int + d.d3);
  }

  /** While register d2 holds at most 999, family 4 does not wrap: it
      computes the exact product with the immediate d3, modulo 1000. */
  lemma NoWrapMultiplyImmediate(s: State)
    requires Fetches(s) && Current(s).d1 == 4 && s.regs[Current(s).d2] <= 999
    ensures
      var d := Current(s);
      Transition(s).0.regs[d.d2] as int == (s.regs[d.d2] as int * d.d3) % 1000
  {
    var d := Current(s);
    var a := s.regs[d.d2] as int;
    assert a * d.d3 <= 999 * 9 by {
      assert a * d.d3 <= 999 * d.d3;
    }
    WrapBelow16Bits(a * d.d3);
  }

  /** While registers d2 and d3 hold at most 999, family 6 does not wrap:
      it computes their exact sum modulo 1000. */
  lemma NoWrapAddRegisters(s: State)
    requires Fetches(s) && Current(s).d1 == 6
    requires s.regs[Current(s).d2] <= 999 && s.regs[Current(s).d3] <= 999
    ensures
      var d := Current(s);
      Transition(s).0.regs[d.d2] as int == (s.regs[d.d2] as int + s.regs[d.d3] as int) % 1000
  {
    var d := Current(s);
    WrapBelow16Bits(s.regs[d.d2] as int + s.regs[d.d3] as int);
  }

  /** Go's 16-bit arithmetic is exact below 65536. */
  lemma WrapBelow16Bits(x: nat)
    requires x < 0x1_0000
    ensures Wrap16(x) as int == x
  {
  }

  /** Family 0: a zero test register moves to the next cell, any other value
      jumps to the target register's value, which is not range-checked. Only
      the pointer and the counter change. */
  lemma ConditionalJump(s: State)
    requires Fetches(s) && Current(s).d1 == 0
    ensures Transition(s).1.Ok?
    ensures
      var d := Current(s);
      Transition(s).0 == Counted(s).(ip := if s.regs[d.d3] == 0 then s.ip + 1 else s.regs[d.d2])
  {
  }

  /** A jump to a target past the memory succeeds; the following step then
      faults on the pointer check, unless the budget is exhausted first. */
  lemma JumpTargetCheckedOnNextStep(s: State)
    requires Fetches(s) && Current(s).d1 == 0
    requires s.regs[Current(s).d3] != 0 && s.regs[Current(s).d2] > 999
    requires Inc64(s.ic) <= s.ilimit
    ensures Transition(s).1.Ok?
    ensures
      var t := Transition(s).0;
      Transition(t) == (t.(running := false), Fault(PointerOutOfRange, SnapshotOf(t)))
  {
  }

  /** A jump, past the memory or not, that uses the last instruction of the
      budget is followed by a timeout: the budget is checked before the
      pointer. */
  lemma JumpOnLastBudgetTimesOut(s: State)
    requires Fetches(s) && Current(s).d1 == 0 && s.regs[Current(s).d3] != 0
    requires Inc64(s.ic) > s.ilimit
    ensures Transition(s).1.Ok?
    ensures
      var t := Transition(s).0;
      t.ip == s.regs[Current(s).d2] &&
      Transition(t) == (t.(running := false), Fault(ExecutionTimeout, SnapshotOf(t)))
  {
  }

  // ---------------------------------------------------- the range invariant

  /** If memory and registers hold only decodable values, one step keeps it
      so: every write to a register or cell copies or reduces such a value. */
  lemma StepPreservesInRange(s: State)
    requires InRange(s)
    ensures InRange(Transition(s).0)
  {
    var t := Transition(s).0;
    if Fetches(s) {
      var d := Current(s);
      if d.d1 in {3, 4, 6, 7} {
        ArithmeticResultBelow1000(s);
      }
      forall k | 0 <= k < REGISTER_COUNT ensures t.regs[k] <= 999 {
        if d.d1 == 8 && Transition(s).1.Ok? && k == d.d2 {
          assert t.regs[k] == s.memory[s.regs[d.d3]];
        }
      }
    }
  }

  /** A step that succeeds leaves the rest of the run to the next state. */
  lemma RunOnStep(s: State)
    requires s.ilimit as int < U64_MAX && s.running && Transition(s).1.Ok?
    ensures Run(s) == Run(Transition(s).0)
  {
  }

  /** The range invariant holds at the end of a whole run. */
  lemma {:induction false} RunPreservesInRange(s: State)
    requires s.ilimit as int < U64_MAX && InRange(s)
    ensures InRange(Run(s).0)
    decreases Fuel(s)
  {
    if s.running {
      StepPreservesInRange(s);
      if Transition(s).1.Ok? {
        RunPreservesInRange(Transition(s).0);
      }
    }
  }

  // --------------------------------------------------------------- the budget

  /** Counting from at most budget + 1, a run never counts past budget + 1,
      and a run stopped by the budget has counted exactly budget + 1
      instructions: a budget of B lets B + 1 instructions execute. */
  lemma {:induction false} TimeoutAfterBudgetPlusOne(s: State)
    requires s.ilimit as int < U64_MAX && s.ic as int <= s.ilimit as int + 1
    ensures Run(s).0.ic as int <= s.ilimit as int + 1
    ensures Run(s).1.Fault? && Run(s).1.kind == ExecutionTimeout ==>
      Run(s).0.ic as int == s.ilimit as int + 1
    decreases Fuel(s)
  {
    if s.running {
      var t := Transition(s);
      if t.1.Ok? {
        TimeoutAfterBudgetPlusOne(t.0);
      }
    }
  }

  /** The counter never goes down during a run. */
  lemma {:induction false} RunCounterNeverDecreases(s: State)
    requires s.ilimit as int < U64_MAX
    ensures s.ic <= Run(s).0.ic
    decreases Fuel(s)
  {
    if s.running {
      var t := Transition(s);
      if t.1.Ok? {
        RunCounterNeverDecreases(t.0);
      }
    }
  }
}

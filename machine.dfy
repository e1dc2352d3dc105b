/** The GenesysVM struct of vm.go as a class whose methods update its fields
    and arrays in place. Each method is proved to do exactly what the pure
    semantics in module Genesys prescribes for the abstract state `Model()`. */
module Machine {
  import opened Genesys

  class GenesysVM {
    const memory: array<u16>
    const regs: array<u16>
    var ip: u16
    var ic: u64
    var ilimit: u64
    var running: bool

    ghost predicate Valid()
      reads this
    {
      memory.Length == MEMORY_SIZE && regs.Length == REGISTER_COUNT
    }

    /** The machine as a value of the pure semantics. */
    ghost function Model(): State
      reads this, memory, regs
      requires Valid()
    {
      State(memory[..], regs[..], ip, ic, ilimit, running)
    }

    /** NewGenesysVM once the image is known to fit: zeroed memory and
        registers, then the image copied to the start of memory. */
    constructor (code: seq<u16>, limit: u64)
      requires |code| <= MEMORY_SIZE
      ensures Valid() && fresh(memory) && fresh(regs)
      ensures Load(code, limit) == Some(Model())
    {
      memory := new u16[MEMORY_SIZE](_ => 0);
      regs := new u16[REGISTER_COUNT](_ => 0);
      ip, ic, ilimit, running := 0, 0, limit, true;
      new;
      for i := 0 to |code|
        invariant forall j :: 0 <= j < i ==> memory[j] == code[j]
        invariant forall j :: i <= j < MEMORY_SIZE ==> memory[j] == 0
        invariant forall k :: 0 <= k < REGISTER_COUNT ==> regs[k] == 0
        invariant ip == 0 && ic == 0 && ilimit == limit && running
      {
        memory[i] := code[i];
      }
      ghost var loaded := Load(code, limit).value;
      assert memory[..] == loaded.memory;
      assert regs[..] == loaded.regs;
    }

    /** The instruction counter and the running flag. */
    function GetStats(): (stats: (u64, bool))
      reads this
      ensures stats.0 == ic && stats.1 == running
    {
      (ic, running)
    }

    /** Stops the machine and returns the fault with its snapshot. */
    method Panic(kind: FaultKind) returns (r: StepResult)
      requires Valid()
      modifies this`running
      ensures Valid()
      ensures (Model(), r) == Genesys.Panic(old(Model()), kind)
    {
      var instruction := if ip < MEMORY_SIZE as u16 then Some(memory[ip]) else None;
      r := Fault(kind, Snapshot(regs[..], ip, ic, instruction));
      running := false;
    }

    /** Executes one instruction. */
    method Step() returns (r: StepResult)
      requires Valid()
      modifies this, memory, regs
      ensures Valid()
      ensures (Model(), r) == Transition(old(Model()))
    {
      if ic > ilimit {
        r := Panic(ExecutionTimeout);
        return;
      }
      if ip > 999 {
        r := Panic(PointerOutOfRange);
        return;
      }
      ic := Inc64(ic);
      var instruction := memory[ip];
      if instruction > 999 {
        r := Panic(InvalidInstruction);
        return;
      }
      r := Dispatch(instruction);
    }

    /** The `switch d1` of Step, once the instruction is counted and fetched. */
    method Dispatch(instruction: u16) returns (r: StepResult)
      requires Valid() && ip <= 999 && instruction <= 999
      modifies this, memory, regs
      ensures Valid()
      ensures (Model(), r) == Genesys.Dispatch(old(Model()), instruction)
    {
      var d := Decode(instruction);
      var d1, d2, d3 := d.d1, d.d2, d.d3;
      r := Ok;
      if d1 == 1 {
        // HALT takes no operands
        if instruction == 100 {
          running := false;
        } else {
          r := Panic(InvalidOperands);
        }
      } else if d1 == 2 {
        regs[d2] := d3 as u16;
        ip := ip + 1;
      } else if d1 == 3 {
        regs[d2] := Wrap16(regs[d2] as int + d3) % 1000;
        ip := ip + 1;
      } else if d1 == 4 {
        regs[d2] := Wrap16(regs[d2] as int * d3) % 1000;
        ip := ip + 1;
      } else if d1 == 5 {
        regs[d2] := regs[d3];
        ip := ip + 1;
      } else if d1 == 6 {
        regs[d2] := Wrap16(regs[d2] as int + regs[d3] as int) % 1000;
        ip := ip + 1;
      } else if d1 == 7 {
        regs[d2] := ((regs[d2] as int * regs[d3] as int) % 1000) as u16;
        ip := ip + 1;
      } else if d1 == 8 {
        var addr := regs[d3];
        if addr > 999 {
          r := Panic(InvalidMemoryReference);
          return;
        }
        regs[d2] := memory[addr];
        ip := ip + 1;
      } else if d1 == 9 {
        var addr := regs[d3];
        if addr > 999 {
          r := Panic(InvalidMemoryReference);
          return;
        }
        memory[addr] := regs[d2];
        ip := ip + 1;
      } else {
        // conditional jump: to regs[d2] unless regs[d3] is zero
        assert d1 == 0;
        if regs[d3] == 0 {
          ip := ip + 1;
        } else {
          ip := regs[d2];
        }
      }
    }

    /** Steps while the machine runs; returns the fault that stopped it, or
        Ok when it halted (or was not running to begin with). */
    method Execute() returns (r: StepResult)
      requires Valid() && (ilimit as int) < U64_MAX
      modifies this, memory, regs
      ensures Valid()
      ensures (Model(), r) == Run(old(Model()))
    {
      while running
        invariant Valid() && ilimit == old(ilimit)
        invariant Run(Model()) == Run(old(Model()))
        decreases Fuel(Model())
      {
        r := Step();
        if r.Fault? {
          return;
        }
      }
      r := Ok;
    }
  }

  /** NewGenesysVM: None when the image does not fit in memory. */
  method NewGenesysVM(code: seq<u16>, limit: u64) returns (vm: Option<GenesysVM>)
    ensures vm.None? <==> |code| > MEMORY_SIZE
    ensures vm.Some? ==> fresh(vm.value) && fresh(vm.value.memory) && fresh(vm.value.regs)
    ensures vm.Some? ==> vm.value.Valid() && Load(code, limit) == Some(vm.value.Model())
  {
    if |code| > MEMORY_SIZE {
      return None;
    }
    var m := new GenesysVM(code, limit);
    vm := Some(m);
  }
}

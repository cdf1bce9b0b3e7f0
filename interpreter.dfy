/** The interpreter of the flat IR: a byte tape, a 16-bit data pointer and
    an instruction pointer into the token sequence. Brackets jump to the
    NEAREST bracket of the other kind, found by linear search. */
module Interpreter {
  import opened Ints
  import opened Wrappers
  import opened FlatIr
  import opened VecUtils

  /** The tape length the source allocates: `u16::MAX` bytes, one short of
      the pointer's range. */
  const MEMORY_SIZE_AS_WRITTEN: nat := 0xFFFF

  /** A tape covering every value of the 16-bit pointer, as `State::new`
      allocates it. */
  const MEMORY_SIZE: nat := 0x1_0000

  /** The interpreter's variables; `output` holds the printed bytes. */
  datatype Machine = Machine(memory: seq<u8>, pointer: u16, ip: nat, output: seq<u8>)

  /** How a run ends: the instruction pointer left the program, a panic, or
      the step budget ran out. */
  datatype Outcome =
    | Halted(final: Machine)
    | Panicked(message: string, at: Machine)
    | OutOfFuel(at: Machine)

  datatype StepResult = Next(next: Machine) | Panic(message: string)

  const OUT_OF_BOUNDS: string := "index out of bounds"
  const UNMATCHED_START: string := "Unmatched '['"
  const UNMATCHED_END: string := "Unmatched ']'"

  /** Zeroed memory, pointer 0, instruction pointer 0, nothing printed. */
  function Initial(size: nat): (m: Machine)
    ensures |m.memory| == size && m.pointer == 0 && m.ip == 0 && m.output == []
    ensures forall i :: 0 <= i < size ==> m.memory[i] == 0
  {
    Machine(seq(size, _ => 0), 0, 0, [])
  }

  /** The new pointer after a pointer step: `by.wrapping_add(pointer as i32) as u16`. */
  function MovePointer(pointer: u16, delta: i32): (r: u16)
    ensures r == (pointer + delta) % 0x1_0000
  {
    WrapThenTruncate(delta + pointer);
    TruncU16(WrapI32(delta + pointer))
  }

  /** The new cell after a value step: `by.wrapping_add(cell as i32) as u8`. */
  function AddToCell(cell: u8, delta: i32): (r: u8)
    ensures r == (cell + delta) % 0x100
  {
    WrapThenTruncate(delta + cell);
    TruncU8(WrapI32(delta + cell))
  }

  /** One iteration of the `while let` loop, for an instruction pointer
      inside the program. */
  function Step(program: seq<ProgramToken>, m: Machine): (r: StepResult)
    requires m.ip < |program|
  {
    if !program[m.ip].ChangeAddr? && m.pointer >= |m.memory| then Panic(OUT_OF_BOUNDS)
    else
      match program[m.ip]
      case ChangeAddr(delta) => Next(m.(pointer := MovePointer(m.pointer, delta), ip := m.ip + 1))
      case ChangeValue(delta) =>
        Next(m.(memory := m.memory[m.pointer := AddToCell(m.memory[m.pointer], delta)], ip := m.ip + 1))
      case LoopStart =>
        if m.memory[m.pointer] != 0 then Next(m.(ip := m.ip + 1))
        else
          (match Scan(program, LoopEnd, Range(m.ip, |program|))
           case Some(offset) => Next(m.(ip := offset + 1))
           case None => Panic(UNMATCHED_START))
      case LoopEnd =>
        if m.memory[m.pointer] == 0 then Next(m.(ip := m.ip + 1))
        else
          (match Scan(program, LoopStart, RevRange(m.ip))
           case Some(offset) => Next(m.(ip := offset + 1))
           case None => Panic(UNMATCHED_END))
      case Print => Next(m.(output := m.output + [m.memory[m.pointer]], ip := m.ip + 1))
  }

  /** `run_program` with at most `fuel` iterations. */
  function Run(program: seq<ProgramToken>, m: Machine, fuel: nat): Outcome
    decreases fuel
  {
    if m.ip >= |program| then Halted(m)
    else if fuel == 0 then OutOfFuel(m)
    else
      match Step(program, m)
      case Next(m') => Run(program, m', fuel - 1)
      case Panic(message) => Panicked(message, m)
  }

  // ---------------------------------------------------------------------
  // What one step does.

  /** A step keeps the tape length and the instruction pointer within the
      program (it may point just past the end, which stops the loop); the
      output only grows, by at most one byte. */
  lemma StepBounds(program: seq<ProgramToken>, m: Machine)
    requires m.ip < |program|
    ensures Step(program, m).Next? ==>
      var n := Step(program, m).next;
      && |n.memory| == |m.memory|
      && n.ip <= |program|
      && (n.output == m.output || n.output == m.output + [m.memory[m.pointer]])
  {
  }

  /** A pointer step moves the pointer modulo 2^16 and changes nothing else. */
  lemma StepChangeAddr(program: seq<ProgramToken>, m: Machine)
    requires m.ip < |program| && program[m.ip].ChangeAddr?
    ensures Step(program, m) == Next(Machine(m.memory, (m.pointer + program[m.ip].delta) % 0x1_0000, m.ip + 1, m.output))
  {
  }

  /** A value step adds to the current cell modulo 2^8 and changes nothing
      else; on a tape that covers the pointer it never panics. */
  lemma StepChangeValue(program: seq<ProgramToken>, m: Machine)
    requires m.ip < |program| && program[m.ip].ChangeValue? && m.pointer < |m.memory|
    ensures Step(program, m).Next?
    ensures var n := Step(program, m).next;
      && n.pointer == m.pointer && n.ip == m.ip + 1 && n.output == m.output
      && |n.memory| == |m.memory|
      && n.memory[m.pointer] == (m.memory[m.pointer] + program[m.ip].delta) % 0x100
      && forall i :: 0 <= i < |m.memory| && i != m.pointer ==> n.memory[i] == m.memory[i]
  {
  }

  /** `[` on a zero cell continues one past the nearest `]` at or after it,
      and panics when there is none; on a non-zero cell it falls through. */
  lemma StepLoopStart(program: seq<ProgramToken>, m: Machine)
    requires m.ip < |program| && program[m.ip].LoopStart? && m.pointer < |m.memory|
    ensures m.memory[m.pointer] != 0 ==> Step(program, m) == Next(m.(ip := m.ip + 1))
    ensures m.memory[m.pointer] == 0 && Step(program, m).Next? ==>
      var o := Step(program, m).next.ip - 1;
      && m.ip < o < |program| && program[o] == LoopEnd
      && (forall j :: m.ip <= j < o ==> program[j] != LoopEnd)
      && Step(program, m).next == m.(ip := o + 1)
    ensures m.memory[m.pointer] == 0 && Step(program, m).Panic? ==>
      Step(program, m) == Panic(UNMATCHED_START)
      && forall j :: m.ip <= j < |program| ==> program[j] != LoopEnd
  {
    if m.memory[m.pointer] == 0 {
      var r := Scan(program, LoopEnd, Range(m.ip, |program|));
      ScanForward(program, LoopEnd, m.ip);
      StepJump(program, m, r);
      if r.Some? {
        SkipForward(program, m, r.value);
      }
    }
  }

  lemma SkipForward(program: seq<ProgramToken>, m: Machine, o: nat)
    requires m.ip < |program| && program[m.ip].LoopStart?
    requires m.ip <= o < |program| && program[o] == LoopEnd
    requires Step(program, m) == Next(m.(ip := o + 1))
    ensures var n := Step(program, m).next; n.ip - 1 == o && m.ip < o && n == m.(ip := o + 1)
  {
  }

  /** `]` on a non-zero cell continues one past the nearest `[` before it,
      and panics when there is none; on a zero cell it falls through. */
  lemma StepLoopEnd(program: seq<ProgramToken>, m: Machine)
    requires m.ip < |program| && program[m.ip].LoopEnd? && m.pointer < |m.memory|
    ensures m.memory[m.pointer] == 0 ==> Step(program, m) == Next(m.(ip := m.ip + 1))
    ensures m.memory[m.pointer] != 0 && Step(program, m).Next? ==>
      var o := Step(program, m).next.ip - 1;
      && 0 <= o < m.ip && program[o] == LoopStart
      && (forall j :: o < j < m.ip ==> program[j] != LoopStart)
      && Step(program, m).next == m.(ip := o + 1)
    ensures m.memory[m.pointer] != 0 && Step(program, m).Panic? ==>
      Step(program, m) == Panic(UNMATCHED_END)
      && forall j :: 0 <= j < m.ip ==> program[j] != LoopStart
  {
    if m.memory[m.pointer] != 0 {
      var r := Scan(program, LoopStart, RevRange(m.ip));
      ScanBackward(program, LoopStart, m.ip);
      StepJump(program, m, r);
    }
  }

  /** `.` appends the current cell to the output and changes nothing else. */
  lemma StepPrint(program: seq<ProgramToken>, m: Machine)
    requires m.ip < |program| && program[m.ip].Print? && m.pointer < |m.memory|
    ensures Step(program, m) == Next(m.(output := m.output + [m.memory[m.pointer]], ip := m.ip + 1))
  {
  }

  // ---------------------------------------------------------------------
  // Whole runs.

  /** A run stops normally exactly when the instruction pointer reaches the
      end of the program; the tape keeps its length and the output of a
      run extends the output it started with. */
  lemma {:induction false} RunInvariant(program: seq<ProgramToken>, m: Machine, fuel: nat)
    requires m.ip <= |program|
    ensures var o := Run(program, m, fuel);
      var e := if o.Halted? then o.final else o.at;
      && |e.memory| == |m.memory|
      && m.output <= e.output
      && (o.Halted? ==> e.ip == |program|)
      && (!o.Halted? ==> e.ip < |program|)
    decreases fuel
  {
    if m.ip < |program| && fuel > 0 {
      StepBounds(program, m);
      if Step(program, m).Next? {
        RunInvariant(program, Step(program, m).next, fuel - 1);
      }
    }
  }

  /** With a tape that covers every pointer value the only panics left are
      the unmatched brackets. */
  lemma {:induction false} CoveringTapeNeverOutOfBounds(program: seq<ProgramToken>, m: Machine, fuel: nat)
    requires |m.memory| == MEMORY_SIZE
    ensures Run(program, m, fuel).Panicked? ==>
      Run(program, m, fuel).message in {UNMATCHED_START, UNMATCHED_END}
    decreases fuel
  {
    if m.ip < |program| && fuel > 0 && Step(program, m).Next? {
      StepBounds(program, m);
      CoveringTapeNeverOutOfBounds(program, Step(program, m).next, fuel - 1);
    }
  }

  /** With the tape of the source, moving left from cell 0 and printing
      reads one byte past the end of the tape. */
  lemma AsWrittenOutOfBounds()
    ensures Run([ChangeAddr(-1), Print], Initial(MEMORY_SIZE_AS_WRITTEN), 2)
         == Panicked(OUT_OF_BOUNDS, Initial(MEMORY_SIZE_AS_WRITTEN).(pointer := 0xFFFF, ip := 1))
  {
    var program := [ChangeAddr(-1), Print];
    var m0 := Initial(MEMORY_SIZE_AS_WRITTEN);
    assert MovePointer(0, -1) == 0xFFFF;
    var m1 := m0.(pointer := 0xFFFF, ip := 1);
    assert Step(program, m0) == Next(m1);
    assert Step(program, m1) == Panic(OUT_OF_BOUNDS);
  }

  /** The same program on a covering tape prints the last cell, a zero. */
  lemma CoveringTapePrints()
    ensures var o := Run([ChangeAddr(-1), Print], Initial(MEMORY_SIZE), 2);
      o.Halted? && o.final.output == [0] && o.final.pointer == 0xFFFF
  {
    var program := [ChangeAddr(-1), Print];
    var m0 := Initial(MEMORY_SIZE);
    assert MovePointer(0, -1) == 0xFFFF;
    var m1 := m0.(pointer := 0xFFFF, ip := 1);
    assert Step(program, m0) == Next(m1);
    assert Step(program, m1) == Next(m1.(output := [0], ip := 2));
  }

  /** A skipped loop that contains another loop resumes after the INNER
      `]`, inside the outer loop, and not after the matching one. */
  lemma SkipResumesAtNearestBracket()
    ensures var program := [LoopStart, LoopStart, LoopEnd, LoopEnd, Print];
      Step(program, Initial(MEMORY_SIZE)) == Next(Initial(MEMORY_SIZE).(ip := 3))
  {
    var program := [LoopStart, LoopStart, LoopEnd, LoopEnd, Print];
    var m0 := Initial(MEMORY_SIZE);
    assert Range(0, 5) == [0, 1, 2, 3, 4];
    assert Scan(program, LoopEnd, [2, 3, 4]) == Some(2);
    assert Scan(program, LoopEnd, [1, 2, 3, 4]) == Some(2);
  }

  /** Because the search stops at the nearest `]` rather than the matching
      one, code after an inner loop still runs when the outer loop is
      skipped: on a zero tape `[[].]` prints one byte. */
  lemma SkippedLoopStillPrints()
    ensures var o := Run([LoopStart, LoopStart, LoopEnd, Print, LoopEnd], Initial(MEMORY_SIZE), 3);
      o.Halted? && o.final.output == [0]
  {
    var program := [LoopStart, LoopStart, LoopEnd, Print, LoopEnd];
    var m0 := Initial(MEMORY_SIZE);
    assert Range(0, 5) == [0, 1, 2, 3, 4];
    assert Scan(program, LoopEnd, [2, 3, 4]) == Some(2);
    assert Scan(program, LoopEnd, [1, 2, 3, 4]) == Some(2);
    var m1 := m0.(ip := 3);
    assert Step(program, m0) == Next(m1);
    var m2 := m1.(output := [0], ip := 4);
    assert Step(program, m1) == Next(m2);
    assert Step(program, m2) == Next(m2.(ip := 5));
  }

  // ---------------------------------------------------------------------
  // The loop itself.

  /** `run_program`, with the tape covering the pointer's range and at most
      `fuel` iterations. */
  method RunProgram(program: seq<ProgramToken>, fuel: nat) returns (outcome: Outcome)
    ensures outcome == Run(program, Initial(MEMORY_SIZE), fuel)
  {
    var memory := new u8[MEMORY_SIZE](_ => 0);
    var pointer: u16 := 0;
    var ip: nat := 0;
    var output: seq<u8> := [];
    var budget := fuel;
    assert memory[..] == Initial(MEMORY_SIZE).memory;
    while ip < |program| && budget > 0
      invariant memory.Length == MEMORY_SIZE
      invariant Run(program, Initial(MEMORY_SIZE), fuel) == Run(program, Machine(memory[..], pointer, ip, output), budget)
      decreases budget
    {
      ghost var m := Machine(memory[..], pointer, ip, output);
      match program[ip] {
        case ChangeAddr(delta) =>
          pointer := MovePointer(pointer, delta);
          ip := ip + 1;
          RunStep(program, m, budget, Machine(memory[..], pointer, ip, output));
        case ChangeValue(delta) =>
          memory[pointer] := AddToCell(memory[pointer], delta);
          ip := ip + 1;
          assert memory[..] == m.memory[m.pointer := AddToCell(m.memory[m.pointer], delta)];
          RunStep(program, m, budget, Machine(memory[..], pointer, ip, output));
        case LoopStart =>
          if memory[pointer] == 0 {
            var offset := FindIndex(program, LoopEnd, ip);
            StepJump(program, m, offset);
            if offset.None? {
              return Panicked(UNMATCHED_START, Machine(memory[..], pointer, ip, output));
            }
            ip := offset.value + 1;
          } else {
            ip := ip + 1;
          }
          RunStep(program, m, budget, Machine(memory[..], pointer, ip, output));
        case LoopEnd =>
          if memory[pointer] != 0 {
            var offset := FindIndexBackwards(program, LoopStart, ip);
            StepJump(program, m, offset);
            if offset.None? {
              return Panicked(UNMATCHED_END, Machine(memory[..], pointer, ip, output));
            }
            ip := offset.value + 1;
          } else {
            ip := ip + 1;
          }
          RunStep(program, m, budget, Machine(memory[..], pointer, ip, output));
        case Print =>
          output := output + [memory[pointer]];
          ip := ip + 1;
          RunStep(program, m, budget, Machine(memory[..], pointer, ip, output));
      }
      budget := budget - 1;
    }
    if ip >= |program| {
      outcome := Halted(Machine(memory[..], pointer, ip, output));
    } else {
      outcome := OutOfFuel(Machine(memory[..], pointer, ip, output));
    }
  }

  /** A bracket whose jump is taken continues one past the bracket the
      search found, or panics when the search found none. */
  lemma StepJump(program: seq<ProgramToken>, m: Machine, offset: Option<nat>)
    requires m.ip < |program| && m.pointer < |m.memory|
    requires program[m.ip].LoopStart? ==> m.memory[m.pointer] == 0 && offset == Scan(program, LoopEnd, Range(m.ip, |program|))
    requires program[m.ip].LoopEnd? ==> m.memory[m.pointer] != 0 && offset == Scan(program, LoopStart, RevRange(m.ip))
    requires program[m.ip].LoopStart? || program[m.ip].LoopEnd?
    ensures offset.Some? ==> Step(program, m) == Next(m.(ip := offset.value + 1))
    ensures offset.None? ==> Step(program, m) == Panic(if program[m.ip].LoopStart? then UNMATCHED_START else UNMATCHED_END)
  {
  }

  /** One loop iteration that does not panic advances the run by one step. */
  lemma RunStep(program: seq<ProgramToken>, m: Machine, fuel: nat, next: Machine)
    requires m.ip < |program| && fuel > 0 && Step(program, m) == Next(next)
    ensures Run(program, m, fuel) == Run(program, next, fuel - 1)
  {
  }
}

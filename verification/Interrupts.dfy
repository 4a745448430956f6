/** The nesting counter that turns interrupts off, and the table that dispatches them. */
module Interrupts {

  const MIN_LINE := 0x20
  const MAX_LINE := 254
  const SPURIOUS_LINE := 255
  const ENTRY_COUNT := 256
  const SCHEDULER_LINE := 0x21
  const PANIC_LINE := 0x2A
  const UINT32_MAX := 0xFFFF_FFFF

  datatype Handler = Nothing | PanicHandler | SpuriousHandler | Custom(name: nat)

  datatype Reaction = Blocked | Handled(handler: Handler) | Panicked

  datatype Code = NoError | UnauthorizedLine | NullPointer | AlreadyRegistered | NotRegistered

  /** Turning interrupts off nests; the counter sticks at both ends of its range. */
  function Raised(nesting: nat): nat {
    if nesting < UINT32_MAX then nesting + 1 else nesting
  }

  function Lowered(nesting: nat): nat {
    if nesting > 0 then nesting - 1 else nesting
  }

  // ----- what the counter means -------------------------------------------------------------------

  datatype Call = DisableCall | EnableCall

  /** The counter after some calls, one by one. */
  function After(nesting: nat, calls: seq<Call>): nat
    decreases |calls|
  {
    if calls == [] then nesting
    else
      var n := After(nesting, calls[..|calls| - 1]);
      if calls[|calls| - 1] == DisableCall then Raised(n) else Lowered(n)
  }

  /** How many more times interrupts were disabled than enabled. */
  function Balance(calls: seq<Call>): int
    decreases |calls|
  {
    if calls == [] then 0
    else Balance(calls[..|calls| - 1]) + if calls[|calls| - 1] == DisableCall then 1 else -1
  }

  lemma {:induction false} BalanceConcat(a: seq<Call>, b: seq<Call>)
    ensures Balance(a + b) == Balance(a) + Balance(b)
    decreases |b|
  {
    if b == [] {
      assert a + b == a;
    } else {
      assert (a + b)[..|a + b| - 1] == a + b[..|b| - 1];
      BalanceConcat(a, b[..|b| - 1]);
    }
  }

  /** Short of the upper end of its range, the counter is the balance of all calls, or that of the
      calls since some enabling call found it at 0, whichever is the largest: enabling calls that are
      not owed are forgotten. */
  lemma {:induction false} NestingIs(nesting: nat, calls: seq<Call>)
    requires nesting + |calls| <= UINT32_MAX
    ensures After(nesting, calls) >= nesting + Balance(calls)
    ensures forall i :: 0 <= i <= |calls| ==> After(nesting, calls) >= Balance(calls[i..])
    ensures After(nesting, calls) == nesting + Balance(calls)
         || exists i :: 0 <= i <= |calls| && After(nesting, calls) == Balance(calls[i..])
    ensures After(nesting, calls) <= nesting + |calls|
    decreases |calls|
  {
    if calls == [] {
      assert calls[0..] == [];
    } else {
      var n := |calls| - 1;
      var before := calls[..n];
      NestingIs(nesting, before);
      forall i | 0 <= i <= n ensures Balance(calls[i..]) == Balance(before[i..]) + if calls[n] == DisableCall then 1 else -1 {
        assert calls[i..][..n - i] == before[i..];
      }
      assert calls[|calls|..] == [];
      if After(nesting, before) != nesting + Balance(before) {
        var i :| 0 <= i <= n && After(nesting, before) == Balance(before[i..]);
        assert After(nesting, calls) == Balance(calls[if After(nesting, before) > 0 || calls[n] == DisableCall then i else |calls|..]);
      } else if After(nesting, before) == 0 && calls[n] == EnableCall {
        assert After(nesting, calls) == Balance(calls[|calls|..]);
      }
    }
  }

  /** Interrupts are on again exactly when no stretch of calls up to now disabled them more often than
      it enabled them, nor did all calls together with what was owed before. */
  lemma OnAgainIff(nesting: nat, calls: seq<Call>)
    requires nesting + |calls| <= UINT32_MAX
    ensures After(nesting, calls) == 0 <==>
      nesting + Balance(calls) <= 0 && forall i :: 0 <= i <= |calls| ==> Balance(calls[i..]) <= 0
  {
    NestingIs(nesting, calls);
    assert calls[|calls|..] == [];
  }

  /** The counter is the balance of all calls exactly when no enabling call came that was not owed. */
  lemma {:induction false} ExactIff(nesting: nat, calls: seq<Call>)
    requires nesting + |calls| <= UINT32_MAX
    ensures After(nesting, calls) == nesting + Balance(calls) <==>
      forall i :: 0 <= i <= |calls| ==> nesting + Balance(calls[..i]) >= 0
  {
    NestingIs(nesting, calls);
    forall i | 0 <= i <= |calls| ensures Balance(calls) == Balance(calls[..i]) + Balance(calls[i..]) {
      BalanceConcat(calls[..i], calls[i..]);
      assert calls[..i] + calls[i..] == calls;
    }
  }

  // ----- the interrupt table ----------------------------------------------------------------------

  /** While interrupts are off, only exceptions and the two special lines get through. */
  predicate Blocks(nesting: nat, line: nat) {
    nesting > 0 && line != PANIC_LINE && line != SCHEDULER_LINE && line >= MIN_LINE
  }

  class InterruptUnit {
    var nesting: nat
    const handlers: array<Handler>

    /** Exceptions panic, whatever is registered or removed. */
    ghost predicate Valid()
      reads this, handlers
    {
      && handlers.Length == ENTRY_COUNT && nesting <= UINT32_MAX
      && (forall i :: 0 <= i < MIN_LINE ==> handlers[i] == PanicHandler)
      && handlers[SPURIOUS_LINE] == SpuriousHandler
    }

    constructor ()
      ensures Valid() && fresh(handlers) && nesting == 1
      ensures forall i :: MIN_LINE <= i <= MAX_LINE ==>
        handlers[i] == if i == PANIC_LINE then PanicHandler else Nothing
    {
      handlers := new Handler[ENTRY_COUNT](i => Nothing);
      nesting := 1;
      new;
      var i := 0;
      while i < 32
        modifies handlers
        invariant 0 <= i <= 32
        invariant forall j :: 0 <= j < ENTRY_COUNT ==> handlers[j] == if j < i then PanicHandler else Nothing
      {
        handlers[i] := PanicHandler;
        i := i + 1;
      }
      handlers[PANIC_LINE] := PanicHandler;
      handlers[SPURIOUS_LINE] := SpuriousHandler;
    }

    method Register(line: nat, handler: Handler) returns (code: Code)
      requires Valid()
      modifies handlers
      ensures Valid()
      ensures code == if line < MIN_LINE || line > MAX_LINE then UnauthorizedLine
                      else if handler == Nothing then NullPointer
                      else if old(handlers[line]) != Nothing then AlreadyRegistered else NoError
      ensures handlers[..] == if code == NoError then old(handlers[..])[line := handler] else old(handlers[..])
    {
      if line < MIN_LINE || line > MAX_LINE {
        return UnauthorizedLine;
      }
      if handler == Nothing {
        return NullPointer;
      }
      if handlers[line] != Nothing {
        return AlreadyRegistered;
      }
      handlers[line] := handler;
      code := NoError;
    }

    method Remove(line: nat) returns (code: Code)
      requires Valid()
      modifies handlers
      ensures Valid()
      ensures code == if line < MIN_LINE || line > MAX_LINE then UnauthorizedLine
                      else if old(handlers[line]) == Nothing then NotRegistered else NoError
      ensures handlers[..] == if code == NoError then old(handlers[..])[line := Nothing] else old(handlers[..])
    {
      if line < MIN_LINE || line > MAX_LINE {
        return UnauthorizedLine;
      }
      if handlers[line] == Nothing {
        return NotRegistered;
      }
      handlers[line] := Nothing;
      code := NoError;
    }

    method EnableLocal()
      requires Valid()
      modifies this`nesting
      ensures Valid() && nesting == Lowered(old(nesting))
    {
      if nesting > 0 {
        nesting := nesting - 1;
      }
    }

    method DisableLocal()
      requires Valid()
      modifies this`nesting
      ensures Valid() && nesting == Raised(old(nesting))
    {
      if nesting < UINT32_MAX {
        nesting := nesting + 1;
      }
    }

    /** What kernel_interrupt_handler does with an interrupt: while interrupts are off, only exceptions, the
        scheduling line and the panic line get through; what gets through goes to its handler, and without
        one it is a panic. */
    method Dispatch(line: nat) returns (reaction: Reaction)
      requires Valid()
      ensures reaction == Blocked <==> nesting > 0 && line >= 0x20 && line != 0x21 && line != 0x2A
      ensures reaction == Blocked <==> Blocks(nesting, line)
      ensures line < 0x20 ==> reaction == Handled(PanicHandler)
      ensures reaction != Blocked ==>
        reaction == if line < handlers.Length && handlers[line] != Nothing then Handled(handlers[line]) else Panicked
    {
      if nesting > 0 && line != PANIC_LINE && line != SCHEDULER_LINE && line >= MIN_LINE {
        return Blocked;
      }
      if line < ENTRY_COUNT && handlers[line] != Nothing {
        return Handled(handlers[line]);
      }
      return Panicked;
    }
  }
}

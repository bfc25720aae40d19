/** `main` of kilo.c: capture the terminal's attributes, switch the seven
    raw-mode options off one after another, echo bytes until 'q', and leave
    the terminal as it was found. */
module Kilo {
  import opened Flags
  import opened TerminalMode
  import opened Dispatch

  /** One run of the program on a terminal whose attributes are `current`
      and whose keyboard delivers `input`. `term` is the terminal the run
      used; `consumed` is how many bytes were read. The loop can only start
      once the terminal holds raw mode. The handler registered with
      `atexit` runs when `main` returns, so here it is the last call. */
  method Run(current: Termios, input: seq<Ascii>)
    returns (out: string, consumed: nat, status: int, term: Terminal)
    ensures term.defaultTermios == current && term.live == current
    ensures term.modTermios == ApplyAll(current, SetupOrder) == RawMode(current)
    ensures out == Dispatch.Output(input)
    ensures consumed == ConsumedCount(input)
    ensures status == 0
  {
    term := new Terminal.Capture(current);

    term.CanonicalOff();
    ghost var t1 := term.modTermios;
    term.HideKeystrokes();
    ghost var t2 := term.modTermios;
    term.TurnOffSignals();
    ghost var t3 := term.modTermios;
    term.TurnOffSwFlowCtrl();
    ghost var t4 := term.modTermios;
    term.TurnOffCtrlV();
    ghost var t5 := term.modTermios;
    term.TurnOffCtrlM();
    ghost var t6 := term.modTermios;
    term.TurnOffOutputProcessing();
    SetupChain(current, t1, t2, t3, t4, t5, t6, term.modTermios);
    SetupReachesRawMode(current);

    out, consumed := DispatchLoop(term, input);

    term.RestoreDefaultMode();
    status := 0;
  }

  /** The seven calls `main` makes, in its order, are `ApplyAll` of
      `SetupOrder`. A solver aid: it keeps the unfolding of `ApplyAll` on
      the literal `SetupOrder` out of `Run`, whose proof is then cheap. */
  lemma SetupChain(t: Termios, t1: Termios, t2: Termios, t3: Termios, t4: Termios,
                   t5: Termios, t6: Termios, t7: Termios)
    requires t1 == Clear(t, RawOption.CanonicalOff) && t2 == Clear(t1, RawOption.HideKeystrokes)
    requires t3 == Clear(t2, RawOption.TurnOffSignals) && t4 == Clear(t3, RawOption.TurnOffSwFlowCtrl)
    requires t5 == Clear(t4, RawOption.TurnOffCtrlV) && t6 == Clear(t5, RawOption.TurnOffCtrlM)
    requires t7 == Clear(t6, RawOption.TurnOffOutputProcessing)
    ensures t7 == ApplyAll(t, SetupOrder)
  {
    var ops := SetupOrder;
    assert ApplyAll(t, ops) == ApplyAll(t1, ops[1..]);
    assert ApplyAll(t1, ops[1..]) == ApplyAll(t2, ops[2..]);
    assert ApplyAll(t2, ops[2..]) == ApplyAll(t3, ops[3..]);
    assert ApplyAll(t3, ops[3..]) == ApplyAll(t4, ops[4..]);
    assert ApplyAll(t4, ops[4..]) == ApplyAll(t5, ops[5..]);
    assert ApplyAll(t5, ops[5..]) == ApplyAll(t6, ops[6..]);
    assert ApplyAll(t6, ops[6..]) == ApplyAll(t7, ops[7..]);
    assert ops[7..] == [];
  }
}

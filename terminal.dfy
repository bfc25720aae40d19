/** The raw-mode controller of kilo.c: the captured terminal attributes, the
    working copy the seven raw-mode functions edit, and the attributes the
    terminal currently has. */
module TerminalMode {
  import opened Flags

  /** The terminal-mode state of kilo.c. `defaultTermios` is the global
      `default_termios`, written once by `tcgetattr` at capture and never
      again; `modTermios` is the global `mod_termios`; `live` stands for the
      attributes the terminal driver holds, which only `tcsetattr` changes. */
  class Terminal {
    const defaultTermios: Termios
    var modTermios: Termios
    var live: Termios

    /** The start of `main`: read the terminal's attributes into
        `default_termios` and copy them into `mod_termios`. */
    constructor Capture(current: Termios)
      ensures defaultTermios == current && live == current
      ensures modTermios == defaultTermios
    {
      defaultTermios := current;
      live := current;
      new;
      modTermios := defaultTermios;
    }

    /** `tcsetattr(STDIN_FILENO, TCSAFLUSH, &t)`: the terminal takes on `t`. */
    method Commit(t: Termios)
      modifies this`live
      ensures live == t
    {
      live := t;
    }

    /** `restore_default_mode`: commit the captured attributes. */
    method RestoreDefaultMode()
      modifies this`live
      ensures live == defaultTermios
      ensures modTermios == old(modTermios)
    {
      Commit(defaultTermios);
    }

    /** `canonical_off`: clear ICANON in the local modes of the working copy and commit it. */
    method CanonicalOff()
      modifies this`modTermios, this`live
      ensures modTermios == Clear(old(modTermios), RawOption.CanonicalOff)
      ensures live == modTermios
    {
      ClearLocalWord(modTermios, RawOption.CanonicalOff);
      modTermios := modTermios.(lflag := modTermios.lflag & !ICANON);
      Commit(modTermios);
    }

    /** `hide_keystrokes`: clear ECHO in the local modes of the working copy and commit it. */
    method HideKeystrokes()
      modifies this`modTermios, this`live
      ensures modTermios == Clear(old(modTermios), RawOption.HideKeystrokes)
      ensures live == modTermios
    {
      ClearLocalWord(modTermios, RawOption.HideKeystrokes);
      modTermios := modTermios.(lflag := modTermios.lflag & !ECHO);
      Commit(modTermios);
    }

    /** `turn_off_signals`: clear ISIG in the local modes of the working copy and commit it. */
    method TurnOffSignals()
      modifies this`modTermios, this`live
      ensures modTermios == Clear(old(modTermios), RawOption.TurnOffSignals)
      ensures live == modTermios
    {
      ClearLocalWord(modTermios, RawOption.TurnOffSignals);
      modTermios := modTermios.(lflag := modTermios.lflag & !ISIG);
      Commit(modTermios);
    }

    /** `turn_off_sw_flow_ctrl`: clear IXON in the input modes of the working copy and commit it. */
    method TurnOffSwFlowCtrl()
      modifies this`modTermios, this`live
      ensures modTermios == Clear(old(modTermios), RawOption.TurnOffSwFlowCtrl)
      ensures live == modTermios
    {
      ClearInputWord(modTermios, RawOption.TurnOffSwFlowCtrl);
      modTermios := modTermios.(iflag := modTermios.iflag & !IXON);
      Commit(modTermios);
    }

    /** `turn_off_ctrl_v`: clear IEXTEN in the local modes of the working copy and commit it. */
    method TurnOffCtrlV()
      modifies this`modTermios, this`live
      ensures modTermios == Clear(old(modTermios), RawOption.TurnOffCtrlV)
      ensures live == modTermios
    {
      ClearLocalWord(modTermios, RawOption.TurnOffCtrlV);
      modTermios := modTermios.(lflag := modTermios.lflag & !IEXTEN);
      Commit(modTermios);
    }

    /** `turn_off_ctrl_m`: clear ICRNL in the input modes of the working copy and commit it. */
    method TurnOffCtrlM()
      modifies this`modTermios, this`live
      ensures modTermios == Clear(old(modTermios), RawOption.TurnOffCtrlM)
      ensures live == modTermios
    {
      ClearInputWord(modTermios, RawOption.TurnOffCtrlM);
      modTermios := modTermios.(iflag := modTermios.iflag & !ICRNL);
      Commit(modTermios);
    }

    /** `turn_off_output_processing`: clear OPOST in the output modes of the working copy and commit it. */
    method TurnOffOutputProcessing()
      modifies this`modTermios, this`live
      ensures modTermios == Clear(old(modTermios), RawOption.TurnOffOutputProcessing)
      ensures live == modTermios
    {
      ClearOutputWord(modTermios, RawOption.TurnOffOutputProcessing);
      modTermios := modTermios.(oflag := modTermios.oflag & !OPOST);
      Commit(modTermios);
    }
  }
}

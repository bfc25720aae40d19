/** The terminal line-discipline flags that kilo.c changes: the input, output
    and local mode words of a POSIX `struct termios` (POSIX.1-2017 Base
    Definitions, chapter 11, sections 11.2.2, 11.2.3 and 11.2.5), and the
    seven raw-mode changes it makes to them, as values. */
module Flags {

  /** A `tcflag_t` flag word. */
  type Word = bv32

  /** Which flag word of a `termios` a flag lives in. */
  datatype Field = Input | Output | Local

  /** The part of a `termios` snapshot that kilo.c reads and writes:
      `c_iflag`, `c_oflag` and `c_lflag`. */
  datatype Termios = Termios(iflag: Word, oflag: Word, lflag: Word)
  {
    function Get(f: Field): Word
    {
      match f
      case Input => iflag
      case Output => oflag
      case Local => lflag
    }
  }

  // Symbolic masks, one bit each and distinct within their word. They are not
  // any platform's numbers. On Linux ISIG and OPOST are both 1, which is
  // harmless because they live in different words; the masks below share
  // bits between words in the same way.

  /** Input modes (section 11.2.2): start/stop output control, map CR to NL. */
  const IXON: Word := 0x1
  const ICRNL: Word := 0x2
  /** Output modes (section 11.2.3): implementation-defined output processing. */
  const OPOST: Word := 0x1
  /** Local modes (section 11.2.5): canonical input, echo, signals, extensions. */
  const ICANON: Word := 0x1
  const ECHO: Word := 0x2
  const ISIG: Word := 0x4
  const IEXTEN: Word := 0x8

  /** The seven raw-mode functions of kilo.c, one per flag each clears. */
  datatype RawOption =
    | CanonicalOff            // canonical_off: ICANON
    | HideKeystrokes          // hide_keystrokes: ECHO
    | TurnOffSignals          // turn_off_signals: ISIG
    | TurnOffSwFlowCtrl       // turn_off_sw_flow_ctrl: IXON
    | TurnOffCtrlV            // turn_off_ctrl_v: IEXTEN
    | TurnOffCtrlM            // turn_off_ctrl_m: ICRNL
    | TurnOffOutputProcessing // turn_off_output_processing: OPOST

  /** The order in which `main` applies the seven options. */
  const SetupOrder: seq<RawOption> :=
    [CanonicalOff, HideKeystrokes, TurnOffSignals, TurnOffSwFlowCtrl,
     TurnOffCtrlV, TurnOffCtrlM, TurnOffOutputProcessing]

  /** The word an option's flag lives in. */
  function FieldOf(o: RawOption): Field
  {
    match o
    case CanonicalOff | HideKeystrokes | TurnOffSignals | TurnOffCtrlV => Local
    case TurnOffSwFlowCtrl | TurnOffCtrlM => Input
    case TurnOffOutputProcessing => Output
  }

  /** The flag an option clears. */
  function MaskOf(o: RawOption): Word
  {
    match o
    case CanonicalOff => ICANON
    case HideKeystrokes => ECHO
    case TurnOffSignals => ISIG
    case TurnOffSwFlowCtrl => IXON
    case TurnOffCtrlV => IEXTEN
    case TurnOffCtrlM => ICRNL
    case TurnOffOutputProcessing => OPOST
  }

  /** Whether the flag that option `o` clears is set in `t`. */
  predicate IsSet(t: Termios, o: RawOption)
  {
    t.Get(FieldOf(o)) & MaskOf(o) != 0
  }

  /** Every option's flag is exactly one bit. */
  lemma MaskIsOneBit(o: RawOption)
    ensures MaskOf(o) != 0 && MaskOf(o) & (MaskOf(o) - 1) == 0
  {
  }

  /** Two different options never clear the same bit of the same word. */
  lemma MasksDistinct(o: RawOption, p: RawOption)
    requires o != p && FieldOf(o) == FieldOf(p)
    ensures MaskOf(o) & MaskOf(p) == 0
  {
  }

  // ---------------------------------------------------------------------
  // Masks of sets of options, one word at a time

  /** The input-mode bits selected by two choices. */
  function InputMask(ixon: bool, icrnl: bool): Word
  {
    (if ixon then IXON else 0) | (if icrnl then ICRNL else 0)
  }

  /** The output-mode bits selected by one choice. */
  function OutputMask(opost: bool): Word
  {
    if opost then OPOST else 0
  }

  /** The local-mode bits selected by four choices. */
  function LocalMask(icanon: bool, echo: bool, isig: bool, iexten: bool): Word
  {
    (if icanon then ICANON else 0) | (if echo then ECHO else 0)
    | (if isig then ISIG else 0) | (if iexten then IEXTEN else 0)
  }

  /** The bits of the input word that the options in `s` clear. */
  function InputMaskOf(s: set<RawOption>): Word
  {
    InputMask(TurnOffSwFlowCtrl in s, TurnOffCtrlM in s)
  }

  /** The bits of the output word that the options in `s` clear. */
  function OutputMaskOf(s: set<RawOption>): Word
  {
    OutputMask(TurnOffOutputProcessing in s)
  }

  /** The bits of the local word that the options in `s` clear. */
  function LocalMaskOf(s: set<RawOption>): Word
  {
    LocalMask(CanonicalOff in s, HideKeystrokes in s, TurnOffSignals in s, TurnOffCtrlV in s)
  }

  // ---------------------------------------------------------------------
  // Clearing flags

  /** `t` with the flags of every option in `s` cleared at once: the
      order-free description of applying the options in `s`. */
  function ClearSet(t: Termios, s: set<RawOption>): Termios
  {
    Termios(t.iflag & !InputMaskOf(s),
            t.oflag & !OutputMaskOf(s),
            t.lflag & !LocalMaskOf(s))
  }

  /** `flag_word &= ~(FLAG)`: the one change a raw-mode function makes to the
      working copy. The option's bit is cleared in its own word; the other
      two words, whose masks are empty, keep every bit. */
  function Clear(t: Termios, o: RawOption): Termios
  {
    ClearSet(t, {o})
  }

  /** Raw mode as the flag words describe it: the two input flags, the
      output flag and the four local flags off, every other bit as in `t`. */
  function RawMode(t: Termios): Termios
  {
    Termios(t.iflag & !(IXON | ICRNL),
            t.oflag & !OPOST,
            t.lflag & !(ICANON | ECHO | ISIG | IEXTEN))
  }

  /** The working copy after applying `ops` in order to `t`. */
  function ApplyAll(t: Termios, ops: seq<RawOption>): Termios
    decreases ops
  {
    if ops == [] then t else ApplyAll(Clear(t, ops[0]), ops[1..])
  }

  /** The options that occur in `ops`. */
  function Options(ops: seq<RawOption>): set<RawOption>
  {
    set o | o in ops
  }

  // ---------------------------------------------------------------------
  // Facts about single words
  //
  // The word and mask-union lemmas below are solver aids only, not
  // properties of the program: each states one bit-vector identity over
  // plain words or booleans, so that the lemmas about options never ask
  // the solver for bit-vector reasoning and set reasoning at once.

  lemma WordClearNothing(x: Word)
    ensures x & !0 == x
  {
  }

  lemma WordClearKeepsRest(x: Word, m: Word)
    ensures (x & !m) | m == x | m
  {
  }

  lemma WordClearTwice(x: Word, m: Word, n: Word)
    ensures (x & !m) & !n == x & !(m | n)
  {
  }

  lemma InputMaskUnion(a: bool, b: bool, a': bool, b': bool)
    ensures InputMask(a || a', b || b') == InputMask(a, b) | InputMask(a', b')
  {
  }

  lemma OutputMaskUnion(a: bool, a': bool)
    ensures OutputMask(a || a') == OutputMask(a) | OutputMask(a')
  {
  }

  lemma LocalMaskUnion(a: bool, b: bool, c: bool, d: bool, a': bool, b': bool, c': bool, d': bool)
    ensures LocalMask(a || a', b || b', c || c', d || d')
         == LocalMask(a, b, c, d) | LocalMask(a', b', c', d')
  {
  }

  // ---------------------------------------------------------------------
  // Masks of unions of option sets

  lemma InputMaskOfUnion(s: set<RawOption>, s': set<RawOption>)
    ensures InputMaskOf(s + s') == InputMaskOf(s) | InputMaskOf(s')
  {
    var u := s + s';
    assert (TurnOffSwFlowCtrl in u) == (TurnOffSwFlowCtrl in s || TurnOffSwFlowCtrl in s');
    assert (TurnOffCtrlM in u) == (TurnOffCtrlM in s || TurnOffCtrlM in s');
    InputMaskUnion(TurnOffSwFlowCtrl in s, TurnOffCtrlM in s, TurnOffSwFlowCtrl in s', TurnOffCtrlM in s');
  }

  lemma OutputMaskOfUnion(s: set<RawOption>, s': set<RawOption>)
    ensures OutputMaskOf(s + s') == OutputMaskOf(s) | OutputMaskOf(s')
  {
    var u := s + s';
    assert (TurnOffOutputProcessing in u) == (TurnOffOutputProcessing in s || TurnOffOutputProcessing in s');
    OutputMaskUnion(TurnOffOutputProcessing in s, TurnOffOutputProcessing in s');
  }

  lemma LocalMaskOfUnion(s: set<RawOption>, s': set<RawOption>)
    ensures LocalMaskOf(s + s') == LocalMaskOf(s) | LocalMaskOf(s')
  {
    var u := s + s';
    assert (CanonicalOff in u) == (CanonicalOff in s || CanonicalOff in s');
    assert (HideKeystrokes in u) == (HideKeystrokes in s || HideKeystrokes in s');
    assert (TurnOffSignals in u) == (TurnOffSignals in s || TurnOffSignals in s');
    assert (TurnOffCtrlV in u) == (TurnOffCtrlV in s || TurnOffCtrlV in s');
    LocalMaskUnion(CanonicalOff in s, HideKeystrokes in s, TurnOffSignals in s, TurnOffCtrlV in s,
                   CanonicalOff in s', HideKeystrokes in s', TurnOffSignals in s', TurnOffCtrlV in s');
  }

  /** Clearing chosen input flags turns off exactly those flags. */
  lemma InputClearFlags(x: Word, a: bool, b: bool)
    ensures ((x & !InputMask(a, b)) & IXON != 0) == (!a && x & IXON != 0)
    ensures ((x & !InputMask(a, b)) & ICRNL != 0) == (!b && x & ICRNL != 0)
  {
  }

  /** Clearing the chosen output flag turns off exactly that flag. */
  lemma OutputClearFlags(x: Word, a: bool)
    ensures ((x & !OutputMask(a)) & OPOST != 0) == (!a && x & OPOST != 0)
  {
  }

  /** Clearing chosen local flags turns off exactly those flags. */
  lemma LocalClearFlags(x: Word, a: bool, b: bool, c: bool, d: bool)
    ensures ((x & !LocalMask(a, b, c, d)) & ICANON != 0) == (!a && x & ICANON != 0)
    ensures ((x & !LocalMask(a, b, c, d)) & ECHO != 0) == (!b && x & ECHO != 0)
    ensures ((x & !LocalMask(a, b, c, d)) & ISIG != 0) == (!c && x & ISIG != 0)
    ensures ((x & !LocalMask(a, b, c, d)) & IEXTEN != 0) == (!d && x & IEXTEN != 0)
  {
  }

  /** The masks of a single option: its own bit in its own word, nothing
      in the other two. */
  lemma SingletonMasks(o: RawOption)
    ensures InputMaskOf({o}) == if FieldOf(o) == Input then MaskOf(o) else 0
    ensures OutputMaskOf({o}) == if FieldOf(o) == Output then MaskOf(o) else 0
    ensures LocalMaskOf({o}) == if FieldOf(o) == Local then MaskOf(o) else 0
  {
    match o
    case CanonicalOff =>
      assert LocalMaskOf({o}) == LocalMask(true, false, false, false);
    case HideKeystrokes =>
      assert LocalMaskOf({o}) == LocalMask(false, true, false, false);
    case TurnOffSignals =>
      assert LocalMaskOf({o}) == LocalMask(false, false, true, false);
    case TurnOffCtrlV =>
      assert LocalMaskOf({o}) == LocalMask(false, false, false, true);
    case TurnOffSwFlowCtrl =>
      assert InputMaskOf({o}) == InputMask(true, false);
    case TurnOffCtrlM =>
      assert InputMaskOf({o}) == InputMask(false, true);
    case TurnOffOutputProcessing =>
      assert OutputMaskOf({o}) == OutputMask(true);
  }

  /** For an option of the local modes, `Clear` is `c_lflag &= ~(FLAG)`:
      the other two words are untouched and every bit of the local word
      other than the option's own keeps its value. */
  lemma ClearLocalWord(t: Termios, o: RawOption)
    requires FieldOf(o) == Local
    ensures Clear(t, o) == t.(lflag := t.lflag & !MaskOf(o))
    ensures Clear(t, o).lflag | MaskOf(o) == t.lflag | MaskOf(o)
  {
    SingletonMasks(o);
    WordClearNothing(t.iflag);
    WordClearNothing(t.oflag);
    WordClearKeepsRest(t.lflag, MaskOf(o));
  }

  /** For an option of the input modes, `Clear` is `c_iflag &= ~(FLAG)`. */
  lemma ClearInputWord(t: Termios, o: RawOption)
    requires FieldOf(o) == Input
    ensures Clear(t, o) == t.(iflag := t.iflag & !MaskOf(o))
    ensures Clear(t, o).iflag | MaskOf(o) == t.iflag | MaskOf(o)
  {
    SingletonMasks(o);
    WordClearNothing(t.oflag);
    WordClearNothing(t.lflag);
    WordClearKeepsRest(t.iflag, MaskOf(o));
  }

  /** For an option of the output modes, `Clear` is `c_oflag &= ~(FLAG)`. */
  lemma ClearOutputWord(t: Termios, o: RawOption)
    requires FieldOf(o) == Output
    ensures Clear(t, o) == t.(oflag := t.oflag & !MaskOf(o))
    ensures Clear(t, o).oflag | MaskOf(o) == t.oflag | MaskOf(o)
  {
    SingletonMasks(o);
    WordClearNothing(t.iflag);
    WordClearNothing(t.lflag);
    WordClearKeepsRest(t.oflag, MaskOf(o));
  }

  /** `ClearSet` turns off exactly the flags of the options in `s` and
      leaves the flags of all other options as they were. */
  lemma ClearSetFlags(t: Termios, s: set<RawOption>, o: RawOption)
    ensures IsSet(ClearSet(t, s), o) <==> o !in s && IsSet(t, o)
  {
    match FieldOf(o)
    case Input =>
      InputClearFlags(t.iflag, TurnOffSwFlowCtrl in s, TurnOffCtrlM in s);
    case Output =>
      OutputClearFlags(t.oflag, TurnOffOutputProcessing in s);
    case Local =>
      LocalClearFlags(t.lflag, CanonicalOff in s, HideKeystrokes in s, TurnOffSignals in s, TurnOffCtrlV in s);
  }

  /** A raw-mode change turns off its own flag. */
  lemma ClearTurnsFlagOff(t: Termios, o: RawOption)
    ensures !IsSet(Clear(t, o), o)
  {
    ClearSetFlags(t, {o}, o);
  }

  /** A raw-mode change leaves the flag of every other option as it was. */
  lemma ClearKeepsOtherFlags(t: Termios, o: RawOption, p: RawOption)
    requires o != p
    ensures IsSet(Clear(t, o), p) == IsSet(t, p)
  {
    ClearSetFlags(t, {o}, p);
  }

  // ---------------------------------------------------------------------
  // Applying options in sequence

  lemma ClearSetTwiceInput(t: Termios, s: set<RawOption>, s': set<RawOption>)
    ensures ClearSet(ClearSet(t, s), s').iflag == ClearSet(t, s + s').iflag
  {
    InputMaskOfUnion(s, s');
    WordClearTwice(t.iflag, InputMaskOf(s), InputMaskOf(s'));
  }

  lemma ClearSetTwiceOutput(t: Termios, s: set<RawOption>, s': set<RawOption>)
    ensures ClearSet(ClearSet(t, s), s').oflag == ClearSet(t, s + s').oflag
  {
    OutputMaskOfUnion(s, s');
    WordClearTwice(t.oflag, OutputMaskOf(s), OutputMaskOf(s'));
  }

  lemma ClearSetTwiceLocal(t: Termios, s: set<RawOption>, s': set<RawOption>)
    ensures ClearSet(ClearSet(t, s), s').lflag == ClearSet(t, s + s').lflag
  {
    LocalMaskOfUnion(s, s');
    WordClearTwice(t.lflag, LocalMaskOf(s), LocalMaskOf(s'));
  }

  /** Clearing the flags of `s` and then those of `s'` clears those of both. */
  lemma ClearSetTwice(t: Termios, s: set<RawOption>, s': set<RawOption>)
    ensures ClearSet(ClearSet(t, s), s') == ClearSet(t, s + s')
  {
    ClearSetTwiceInput(t, s, s');
    ClearSetTwiceOutput(t, s, s');
    ClearSetTwiceLocal(t, s, s');
  }

  /** Each raw-mode change is idempotent. */
  lemma ClearIdempotent(t: Termios, o: RawOption)
    ensures Clear(Clear(t, o), o) == Clear(t, o)
  {
    ClearSetTwice(t, {o}, {o});
    assert {o} + {o} == {o};
  }

  /** Any two raw-mode changes commute. */
  lemma ClearCommutes(t: Termios, o: RawOption, p: RawOption)
    ensures Clear(Clear(t, o), p) == Clear(Clear(t, p), o)
  {
    ClearSetTwice(t, {o}, {p});
    ClearSetTwice(t, {p}, {o});
    assert {o} + {p} == {p} + {o};
  }

  /** Applying options one after another clears exactly the flags of the
      options applied, whatever their order and however often each occurs. */
  lemma {:induction false} ApplyAllIsClearSet(t: Termios, ops: seq<RawOption>)
    ensures ApplyAll(t, ops) == ClearSet(t, Options(ops))
    decreases ops
  {
    if ops == [] {
      assert Options(ops) == {};
      WordClearNothing(t.iflag);
      WordClearNothing(t.oflag);
      WordClearNothing(t.lflag);
    } else {
      ApplyAllIsClearSet(Clear(t, ops[0]), ops[1..]);
      ClearSetTwice(t, {ops[0]}, Options(ops[1..]));
      assert Options(ops) == {ops[0]} + Options(ops[1..]) by {
        assert forall o :: o in ops <==> o == ops[0] || o in ops[1..];
      }
    }
  }

  /** Applying options turns off exactly the flags of the options applied. */
  lemma ApplyAllFlags(t: Termios, ops: seq<RawOption>, o: RawOption)
    ensures IsSet(ApplyAll(t, ops), o) <==> o !in ops && IsSet(t, o)
  {
    ApplyAllIsClearSet(t, ops);
    ClearSetFlags(t, Options(ops), o);
  }

  /** The order in which the options are applied does not matter. */
  lemma ApplyAllOrderIndependent(t: Termios, ops1: seq<RawOption>, ops2: seq<RawOption>)
    requires Options(ops1) == Options(ops2)
    ensures ApplyAll(t, ops1) == ApplyAll(t, ops2)
  {
    ApplyAllIsClearSet(t, ops1);
    ApplyAllIsClearSet(t, ops2);
  }

  /** Applying the same options a second time changes nothing. */
  lemma ApplyAllIdempotent(t: Termios, ops: seq<RawOption>)
    ensures ApplyAll(ApplyAll(t, ops), ops) == ApplyAll(t, ops)
  {
    var s := Options(ops);
    ApplyAllIsClearSet(t, ops);
    ApplyAllIsClearSet(ApplyAll(t, ops), ops);
    ClearSetTwice(t, s, s);
    assert s + s == s;
  }

  /** Any sequence that names all seven options, in any order, yields raw mode. */
  lemma ApplyAllReachesRawMode(t: Termios, ops: seq<RawOption>)
    requires forall o :: o in ops
    ensures ApplyAll(t, ops) == RawMode(t)
  {
    ApplyAllIsClearSet(t, ops);
    var s := Options(ops);
    assert CanonicalOff in s && HideKeystrokes in s && TurnOffSignals in s && TurnOffSwFlowCtrl in s;
    assert TurnOffCtrlV in s && TurnOffCtrlM in s && TurnOffOutputProcessing in s;
  }

  /** The order `main` uses names all seven options, so it reaches raw mode. */
  lemma SetupReachesRawMode(t: Termios)
    ensures ApplyAll(t, SetupOrder) == RawMode(t)
  {
    forall o ensures o in SetupOrder {
      match o
      case CanonicalOff => assert SetupOrder[0] == o;
      case HideKeystrokes => assert SetupOrder[1] == o;
      case TurnOffSignals => assert SetupOrder[2] == o;
      case TurnOffSwFlowCtrl => assert SetupOrder[3] == o;
      case TurnOffCtrlV => assert SetupOrder[4] == o;
      case TurnOffCtrlM => assert SetupOrder[5] == o;
      case TurnOffOutputProcessing => assert SetupOrder[6] == o;
    }
    ApplyAllReachesRawMode(t, SetupOrder);
  }
}

# kilo raw-mode input layer, modelled in Dafny

This project models `kilo.c`, the first stage of a terminal text editor. It
switches the terminal into raw mode, echoes every key it reads as a
diagnostic line, stops on `q`, and restores the terminal's original
attributes on exit.

The model has five modules:

- `Flags` (flags.dfy) models the three flag words of a `struct termios`
  (`c_iflag`, `c_oflag`, `c_lflag`) as 32-bit words. It also models the
  seven raw-mode options as values: `Clear` clears one flag, `ClearSet`
  clears a set of flags at once, `ApplyAll` applies a sequence of options
  in order, and `RawMode` is the target state. The lemmas prove:
  - each option clears its own bit and touches no other bit or word;
  - each option is idempotent;
  - any two options commute, and any order of application gives the same
    result;
  - the order that `main` uses reaches `RawMode`.
- `TerminalMode` (terminal.dfy) holds the class `Terminal`, with the
  source's two globals `default_termios` and `mod_termios` as fields, plus
  `live`, the attributes the terminal driver currently holds.
  - `default_termios` is a `const`, set once at capture.
  - The seven raw-mode methods each update `mod_termios` in place with
    `&= ~FLAG` and then commit it (`tcsetattr`). Each one is proved equal
    to `Clear` of the old working copy. The bit-level frame of `Clear`
    (its own bit off, every other bit and the other two words unchanged)
    is stated by `Flags.ClearLocalWord`, `Flags.ClearInputWord` and
    `Flags.ClearOutputWord`.
  - `RestoreDefaultMode` commits the captured attributes.
- `Decimal` (decimal.dfy) models `printf("%d")` for non-negative values and
  a parser for its output. Both round trips are proved.
- `Dispatch` (dispatch.dfy) models the read loop. `DispatchLoop` is a
  `while` loop over the input bytes and is proved to produce exactly
  `Output(input)`, the specification:
  - one `Line` per byte read, up to and including the first `q`;
  - then `Quit\r\n`.

  A line is the key's marker (`--SPACE--`, `--TAB--`, `--ESC--` or
  `--BACK--`, only for those four bytes), then the decimal value, then
  ` ('c')` when the byte is not a control code, then `\r\n`. `ParseLine`
  reads a line back, and the lemmas prove that every line names its byte.
- `Kilo` (kilo.dfy) models `main` as `Run`. It captures the attributes,
  applies the seven options in the source's order, runs the loop, and
  finally restores the terminal. `Run` is proved to:
  - start the loop only once the terminal holds `RawMode(current)`:
    `DispatchLoop` requires that of its terminal and cannot change it;
  - print `Output(input)`, reading no byte after the first `q`;
  - return 0;
  - leave the terminal holding exactly the attributes it started with.

Three consequences of the code are easy to miss:

- `q` gets its own line `113 ('q')\r\n` before `Quit\r\n`. The print at
  kilo.c:148-155 follows the `switch`, and the loop guard is checked only
  after it (`QuitAlone`, `OutputEndsWithQuitLine`).
- A space's line ends with ` (' ')` after `--SPACE--32`, because a space is
  not a control code (`SpaceLine`). Backspace (127) is a control code, so
  its line has no character part (`BackLine`).
- kilo.c:95, kilo.c:19 and the `tcsetattr` calls of the raw-mode functions
  ignore their return codes, so the program has no failure path for the
  terminal, and the model has none either.

The flag masks are symbolic: one bit each and distinct within their word.
They are not a particular platform's numbers, because every property
proved depends only on that shape. The flags' meanings are those of
POSIX.1-2017 Base Definitions, sections 11.2.2, 11.2.3 and 11.2.5.

## Model

| member | source | states |
|---|---|---|
| Flags.MaskIsOneBit | kilo.c:28-88 | every flag a raw-mode function clears is exactly one bit |
| Flags.MasksDistinct | kilo.c:28-88 | two different raw-mode functions never clear the same bit of the same word |
| Flags.SingletonMasks | kilo.c:28-88 | one option's masks hold its own bit in its own word and nothing in the other two words |
| Flags.ClearLocalWord | kilo.c:28-68 | for a local-mode option, the model change is exactly `c_lflag &= ~FLAG`; the other words are identical and every other bit of `c_lflag` keeps its value |
| Flags.ClearInputWord | kilo.c:58-78 | the same for the input modes: `c_iflag &= ~FLAG`, and nothing else changes |
| Flags.ClearOutputWord | kilo.c:88 | the same for the output modes: `c_oflag &= ~FLAG`, and nothing else changes |
| Flags.ClearSetFlags | kilo.c:22-90 | after clearing a set of options, an option's flag is on iff it was on before and the option is not in the set |
| Flags.ClearTurnsFlagOff | kilo.c:22-90 | after a raw-mode change, its flag is off whatever the prior state |
| Flags.ClearKeepsOtherFlags | kilo.c:22-90 | a raw-mode change leaves every other option's flag as it was |
| Flags.ClearSetTwice | kilo.c:22-90 | clearing the flags of `s` and then those of `s'` equals clearing the flags of `s + s'` at once |
| Flags.ClearIdempotent | kilo.c:22-90 | applying a raw-mode change twice equals applying it once |
| Flags.ClearCommutes | kilo.c:22-90 | any two raw-mode changes give the same result in either order |
| Flags.ApplyAllIsClearSet | kilo.c:103-122 | applying options one after another equals clearing, at once, the flags of the options that occur in the sequence |
| Flags.ApplyAllFlags | kilo.c:103-122 | after applying a sequence, an option's flag is on iff it was on before and the option does not occur in the sequence |
| Flags.ApplyAllOrderIndependent | kilo.c:103-122 | two sequences naming the same options give the same attributes, whatever their order or repetitions |
| Flags.ApplyAllIdempotent | kilo.c:103-122 | applying the same sequence a second time changes nothing |
| Flags.ApplyAllReachesRawMode | kilo.c:103-122 | any sequence naming all seven options turns exactly IXON, ICRNL, OPOST, ICANON, ECHO, ISIG and IEXTEN off and keeps every other bit |
| Flags.SetupReachesRawMode | kilo.c:103-122 | the order `main` uses reaches that raw mode |
| TerminalMode.Terminal.Capture | kilo.c:94-97 | the captured attributes, the working copy and the terminal's live attributes all equal the attributes read |
| TerminalMode.Terminal.Commit | kilo.c:19 | `tcsetattr` makes the terminal hold the given attributes; nothing else changes |
| TerminalMode.Terminal.RestoreDefaultMode | kilo.c:17-20 | the terminal again holds the captured attributes; the working copy is unchanged |
| TerminalMode.Terminal.CanonicalOff | kilo.c:22-30 | the working copy becomes `Clear(old copy, CanonicalOff)` (ICANON off) and the terminal holds it |
| TerminalMode.Terminal.HideKeystrokes | kilo.c:32-40 | the working copy becomes `Clear(old copy, HideKeystrokes)` (ECHO off) and the terminal holds it |
| TerminalMode.Terminal.TurnOffSignals | kilo.c:42-50 | the working copy becomes `Clear(old copy, TurnOffSignals)` (ISIG off) and the terminal holds it |
| TerminalMode.Terminal.TurnOffSwFlowCtrl | kilo.c:52-60 | the working copy becomes `Clear(old copy, TurnOffSwFlowCtrl)` (IXON off) and the terminal holds it |
| TerminalMode.Terminal.TurnOffCtrlV | kilo.c:62-70 | the working copy becomes `Clear(old copy, TurnOffCtrlV)` (IEXTEN off) and the terminal holds it |
| TerminalMode.Terminal.TurnOffCtrlM | kilo.c:72-80 | the working copy becomes `Clear(old copy, TurnOffCtrlM)` (ICRNL off) and the terminal holds it |
| TerminalMode.Terminal.TurnOffOutputProcessing | kilo.c:82-90 | the working copy becomes `Clear(old copy, TurnOffOutputProcessing)` (OPOST off) and the terminal holds it |
| Decimal.DecimalString | kilo.c:150 | `%d` of a non-negative value is a non-empty string of digits with no leading zero, and is one digit exactly when the value is below 10 |
| Decimal.ParseDecimalString | kilo.c:150 | reading back what `%d` printed gives the value printed |
| Decimal.DecimalStringParse | kilo.c:150 | printing the value of a canonical numeral gives that numeral back, so `%d` is a bijection onto canonical numerals |
| Dispatch.Marker | kilo.c:130-144 | a marker is printed exactly for space, tab, escape and backspace |
| Dispatch.ConsumedCount | kilo.c:127-133 | the loop reads every byte if there is no `q`; otherwise it reads up to and including the first `q` and no further |
| Dispatch.EchoByte | kilo.c:130-155 | one pass of the loop body appends exactly `Line(c)` to the output |
| Dispatch.DispatchLoop | kilo.c:124-157 | on a terminal in raw mode, which it leaves unchanged, the loop reads exactly `ConsumedCount(input)` bytes and prints exactly `Output(input)` |
| Dispatch.ConsumedCountUnique | kilo.c:127-133 | either stopping condition (all input read with no `q`, or the last byte read is the first `q`) determines the count |
| Dispatch.TranscriptSnoc | kilo.c:146-155 | reading one more byte appends its line at the end |
| Dispatch.TranscriptLast | kilo.c:146-155 | the last byte of a run contributes the last line |
| Dispatch.TranscriptAppend | kilo.c:124-156 | the output for two runs of bytes is the output for the first followed by that for the second |
| Dispatch.OutputStopsAtQuit | kilo.c:127-133 | bytes after the first `q` never affect the output |
| Dispatch.OutputWithoutQuit | kilo.c:124-157 | with no `q` in the input, every byte gets its line, then `Quit\r\n` |
| Dispatch.OutputEndsWithQuitLine | kilo.c:124-157 | when the loop stops on `q`, the output is the lines of the earlier bytes, then the line of `q`, then `Quit\r\n` |
| Dispatch.QuitLine | kilo.c:146-155 | the line of `q` is `113 ('q')\r\n` |
| Dispatch.ParseLineOfLine | kilo.c:130-155 | reading a printed line back gives the byte it was printed for |
| Dispatch.LineInjective | kilo.c:130-155 | different bytes print different lines |
| Dispatch.LetterLine | kilo.c:154 | the line of `a` is `97 ('a')\r\n` |
| Dispatch.NewlineLine | kilo.c:150 | the line of a line feed is `10\r\n` |
| Dispatch.PrintableThenNewline | kilo.c:124-157 | the input `a`, line feed prints `97 ('a')\r\n10\r\nQuit\r\n` |
| Dispatch.SpaceLine | kilo.c:135 | the line of a space is `--SPACE--32 (' ')\r\n` |
| Dispatch.TabLine | kilo.c:137 | the line of a tab is `--TAB--9\r\n` |
| Dispatch.EscLine | kilo.c:139 | the line of an escape is `--ESC--27\r\n` |
| Dispatch.BackLine | kilo.c:141 | the line of a backspace (127, a control code) is `--BACK--127\r\n`, with no character part |
| Dispatch.QuitAlone | kilo.c:124-157 | the input `q` alone prints `113 ('q')\r\nQuit\r\n` |
| Kilo.SetupChain | kilo.c:102-122 | the seven calls in `main`'s order compute `ApplyAll(t, SetupOrder)` |
| Kilo.Run | kilo.c:92-159 | the setup leaves the working copy at `RawMode` of the captured attributes, and the loop (which requires the terminal to hold that) runs only after it; the run reads `ConsumedCount(input)` bytes, prints `Output(input)` and returns 0; after the exit handler, the terminal it returns holds exactly the captured attributes |

## Left out

- The terminal driver: `tcgetattr` and `tcsetattr` become the `Capture`
  constructor and `Commit`. The `TCSAFLUSH` discarding of pending input and
  the return codes, which the source ignores, are not modelled.
- Fields of `struct termios` other than the three flag words: the control
  modes and `c_cc` are not touched by the source and are not modelled.
- Flag bit values: the masks are symbolic, not any platform's numbers.
- `atexit`: the registered handler is modelled as an explicit
  `RestoreDefaultMode` call at the end of `Run`. Abnormal termination is
  not modelled (signals, a crash, or `exit` from elsewhere).
- `read`: the input is a finite sequence given up front. End of input, a
  read error and a short read all end the loop, as any return value other
  than 1 does in the source. Blocking and `EINTR` are not modelled.
- `fflush` and stdio buffering: the output is the sequence of characters
  written, with no notion of when they reach the terminal.
- Bytes 128 to 255: the model's input bytes are 0 to 127. The source's
  `char` is signed on common platforms, which gives negative values for
  which `%d` prints a minus sign and `iscntrl` is undefined.
- Locale: `iscntrl` is taken in the "C" locale (codes 0 to 31 and 127).

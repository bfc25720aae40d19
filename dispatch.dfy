/** The read loop of kilo.c's `main`: each byte read from standard input is
    echoed as one line, with a marker for four special keys, its decimal
    value and, for a printable byte, the character itself; 'q' ends it. */
module Dispatch {
  import opened Decimal
  import opened Flags
  import opened TerminalMode

  datatype Option<T> = None | Some(value: T)

  /** A byte read from the terminal, restricted to the 7-bit range. */
  type Ascii = b: int | 0 <= b < 128

  const Tab: Ascii := 9
  const Esc: Ascii := 27
  const Space: Ascii := 32
  const Quit: Ascii := 113
  const Backspace: Ascii := 127

  /** `iscntrl` in the "C" locale: the 32 control codes and DEL. */
  predicate IsCntrl(c: Ascii)
  {
    c < 32 || c == 127
  }

  /** The text the `switch` prints before the value. */
  function Marker(c: Ascii): (m: string)
    ensures |m| > 0 <==> c == Space || c == Tab || c == Esc || c == Backspace
  {
    if c == Space then "--SPACE--"
    else if c == Tab then "--TAB--"
    else if c == Esc then "--ESC--"
    else if c == Backspace then "--BACK--"
    else ""
  }

  /** What the `iscntrl` test prints after the value: the character itself
      for a byte that is not a control code, then CR LF. */
  function Suffix(c: Ascii): string
  {
    if IsCntrl(c) then "\r\n" else " ('" + [c as char] + "')\r\n"
  }

  /** What the `iscntrl` test prints: the decimal value, then the suffix. */
  function Value(c: Ascii): string
  {
    DecimalString(c) + Suffix(c)
  }

  /** Everything one pass of the loop body prints for byte `c`. */
  function Line(c: Ascii): string
  {
    Marker(c) + Value(c)
  }

  /** The lines printed for a run of bytes, one per byte. */
  function Lines(bytes: seq<Ascii>): seq<string>
  {
    seq(|bytes|, i requires 0 <= i < |bytes| => Line(bytes[i]))
  }

  /** The strings of `parts` written one after another. */
  function Join(parts: seq<string>): string
    decreases |parts|
  {
    if parts == [] then "" else Join(parts[..|parts| - 1]) + parts[|parts| - 1]
  }

  /** Everything printed for a run of bytes, in order. */
  function Transcript(bytes: seq<Ascii>): string
  {
    Join(Lines(bytes))
  }

  /** How many bytes the loop reads from `input`: up to and including the
      first 'q', or all of them when there is none. */
  function ConsumedCount(input: seq<Ascii>): (n: nat)
    ensures n <= |input|
    ensures Quit !in input ==> n == |input|
    ensures Quit in input ==> 0 < n && input[n - 1] == Quit && Quit !in input[..n - 1]
    decreases |input|
  {
    if input == [] then 0
    else if input[0] == Quit then 1
    else
      var r := ConsumedCount(input[1..]);
      assert input == [input[0]] + input[1..];
      assert Quit in input ==> input[..r] == [input[0]] + input[1..][..r - 1] by {
        if Quit in input {
          assert Quit in input[1..];
        }
      }
      1 + r
  }

  /** Everything the program writes to standard output after raw mode is on. */
  function Output(input: seq<Ascii>): string
  {
    Transcript(input[..ConsumedCount(input)]) + "Quit\r\n"
  }

  // ---------------------------------------------------------------------
  // The loop

  /** One pass of the loop body after the read: the `switch` prints the
      marker of a special key ('q' only raises the quit flag, which the
      caller does), then the `iscntrl` test prints the value. */
  method EchoByte(before: string, c: Ascii) returns (out: string)
    ensures out == before + Line(c)
  {
    out := before;
    if c == Space {
      out := out + "--SPACE--";
    } else if c == Tab {
      out := out + "--TAB--";
    } else if c == Esc {
      out := out + "--ESC--";
    } else if c == Backspace {
      out := out + "--BACK--";
    }
    assert out == before + Marker(c);
    ghost var marked := out;
    if IsCntrl(c) {
      out := out + (DecimalString(c) + "\r\n");
    } else {
      out := out + (DecimalString(c) + " ('" + [c as char] + "')\r\n");
    }
    assert out == marked + Value(c);
    ConcatAssoc(before, Marker(c), Value(c));
  }

  /** The `while` loop of `main` and the final `printf("Quit\r\n")`: read
      bytes from `input` until 'q' has been handled or the input is used
      up, printing each byte's line as the `switch` and the `iscntrl` test
      do. `consumed` is how many bytes were read. The loop runs on a
      terminal already in raw mode, and it never changes the terminal. */
  method DispatchLoop(term: Terminal, input: seq<Ascii>) returns (out: string, consumed: nat)
    requires term.live == RawMode(term.defaultTermios)
    ensures consumed == ConsumedCount(input)
    ensures out == Output(input)
  {
    out := "";
    consumed := 0;
    var quit := false;
    while !quit && consumed < |input|
      invariant consumed <= |input|
      invariant out == Transcript(input[..consumed])
      invariant !quit ==> Quit !in input[..consumed]
      invariant quit ==> 0 < consumed && input[consumed - 1] == Quit && Quit !in input[..consumed - 1]
      decreases |input| - consumed, !quit
    {
      var c := input[consumed];
      assert input[..consumed + 1] == input[..consumed] + [c];
      TranscriptSnoc(input[..consumed], c);
      if c == Quit {
        quit := true;
      }
      out := EchoByte(out, c);
      consumed := consumed + 1;
    }
    if !quit {
      assert input[..consumed] == input;
    }
    ConsumedCountUnique(input, consumed);
    out := out + "Quit\r\n";
  }

  // ---------------------------------------------------------------------
  // Properties of the output

  // Solver aid only: states associativity once so the loop proofs need not
  // rediscover it next to string literals.
  lemma ConcatAssoc(a: string, b: string, c: string)
    ensures (a + b) + c == a + (b + c)
  {
  }

  /** The two ways the loop can stop pin down how much it read. */
  lemma ConsumedCountUnique(input: seq<Ascii>, n: nat)
    requires n <= |input|
    requires (n == |input| && Quit !in input)
          || (0 < n && input[n - 1] == Quit && Quit !in input[..n - 1])
    ensures n == ConsumedCount(input)
  {
  }

  /** One more byte read adds its line at the end. */
  lemma TranscriptSnoc(bytes: seq<Ascii>, c: Ascii)
    ensures Transcript(bytes + [c]) == Transcript(bytes) + Line(c)
  {
    var ls := Lines(bytes + [c]);
    assert ls[..|ls| - 1] == Lines(bytes);
  }

  /** The last byte of a run contributes the last line. */
  lemma TranscriptLast(bytes: seq<Ascii>)
    requires bytes != []
    ensures Transcript(bytes) == Transcript(bytes[..|bytes| - 1]) + Line(bytes[|bytes| - 1])
  {
    var pre := bytes[..|bytes| - 1];
    assert bytes == pre + [bytes[|bytes| - 1]];
    TranscriptSnoc(pre, bytes[|bytes| - 1]);
  }

  /** The output for two runs of bytes is the output for each, in order. */
  lemma {:induction false} TranscriptAppend(a: seq<Ascii>, b: seq<Ascii>)
    ensures Transcript(a + b) == Transcript(a) + Transcript(b)
    decreases |b|
  {
    if b == [] {
      assert a + b == a;
      assert Transcript(b) == "";
    } else {
      var b' := b[..|b| - 1];
      var c := b[|b| - 1];
      assert a + b == (a + b') + [c];
      assert b == b' + [c];
      TranscriptSnoc(a + b', c);
      TranscriptSnoc(b', c);
      TranscriptAppend(a, b');
      ConcatAssoc(Transcript(a), Transcript(b'), Line(c));
    }
  }

  /** Bytes after the first 'q' are never read: they do not affect the output. */
  lemma OutputStopsAtQuit(pre: seq<Ascii>, post: seq<Ascii>)
    requires Quit in pre
    ensures Output(pre + post) == Output(pre)
  {
    var n := ConsumedCount(pre);
    assert (pre + post)[..n] == pre[..n];
    assert (pre + post)[..n - 1] == pre[..n - 1];
    ConsumedCountUnique(pre + post, n);
  }

  /** With no 'q' in the input, every byte gets its line before "Quit". */
  lemma OutputWithoutQuit(input: seq<Ascii>)
    requires Quit !in input
    ensures Output(input) == Transcript(input) + "Quit\r\n"
  {
    assert input[..|input|] == input;
  }

  /** The quit byte is echoed like any other printable byte. */
  lemma QuitLine()
    ensures Line(Quit) == "113 ('q')\r\n"
  {
    assert DecimalString(11) == "11";
    assert DecimalString(113) == "113";
  }

  /** When the loop stops on 'q', the output ends with the line for 'q'
      (which `QuitLine` spells out) followed by "Quit", after the lines of
      the bytes before it. */
  lemma OutputEndsWithQuitLine(input: seq<Ascii>)
    requires Quit in input
    ensures var n := ConsumedCount(input);
      input[n - 1] == Quit
      && Output(input) == Transcript(input[..n - 1]) + Line(input[n - 1]) + "Quit\r\n"
  {
    var n := ConsumedCount(input);
    TranscriptLast(input[..n]);
    assert input[..n][..n - 1] == input[..n - 1];
  }

  // ---------------------------------------------------------------------
  // Reading a line back

  /** The line without the marker it starts with, if any. */
  function StripMarker(l: string): string
  {
    if |l| >= 9 && l[..9] == "--SPACE--" then l[9..]
    else if |l| >= 7 && (l[..7] == "--TAB--" || l[..7] == "--ESC--") then l[7..]
    else if |l| >= 8 && l[..8] == "--BACK--" then l[8..]
    else l
  }

  /** The longest run of digits `s` starts with. */
  function LeadingDigits(s: string): (d: string)
    ensures AllDigits(d) && d <= s
    ensures d == s || !IsDigit(s[|d|])
    decreases |s|
  {
    if s == [] || !IsDigit(s[0]) then [] else [s[0]] + LeadingDigits(s[1..])
  }

  /** The byte a printed line reports: the numeral after the marker. */
  function ParseLine(l: string): Option<Ascii>
  {
    var d := LeadingDigits(StripMarker(l));
    if d == [] then None
    else
      var v := ParseDecimal(d);
      if v < 128 then Some(v) else None
  }

  /** The digits of a numeral followed by a non-digit are exactly the numeral. */
  lemma {:induction false} LeadingDigitsOf(d: string, rest: string)
    requires AllDigits(d)
    requires rest == [] || !IsDigit(rest[0])
    ensures LeadingDigits(d + rest) == d
    decreases |d|
  {
    if d == [] {
      assert d + rest == rest;
    } else {
      assert (d + rest)[1..] == d[1..] + rest;
      LeadingDigitsOf(d[1..], rest);
    }
  }

  /** A line with no marker starts with a digit, so no marker is stripped. */
  lemma StripMarkerOfValue(c: Ascii)
    ensures StripMarker(Value(c)) == Value(c)
  {
    var v := Value(c);
    assert IsDigit(v[0]);
    assert |v| >= 7 ==> v[..7][0] == v[0];
    assert |v| >= 8 ==> v[..8][0] == v[0];
    assert |v| >= 9 ==> v[..9][0] == v[0];
  }

  /** Stripping the marker of a line leaves the value part. */
  lemma StripMarkerOfLine(c: Ascii)
    ensures StripMarker(Line(c)) == Value(c)
  {
    if Marker(c) == "" {
      assert Line(c) == Value(c);
      StripMarkerOfValue(c);
    } else {
      var m := Marker(c);
      var l := Line(c);
      assert l[..|m|] == m && l[|m|..] == Value(c);
      assert l[2] == m[2];
      assert |l| >= 9 ==> l[..9][2] == l[2];
      assert |l| >= 7 ==> l[..7][2] == l[2];
    }
  }

  /** Every printed line can be read back: it names the byte it was
      printed for. */
  lemma ParseLineOfLine(c: Ascii)
    ensures ParseLine(Line(c)) == Some(c)
  {
    StripMarkerOfLine(c);
    LeadingDigitsOf(DecimalString(c), Suffix(c));
    ParseDecimalString(c);
  }

  /** Different bytes print different lines. */
  lemma LineInjective(a: Ascii, b: Ascii)
    requires Line(a) == Line(b)
    ensures a == b
  {
    ParseLineOfLine(a);
    ParseLineOfLine(b);
  }

  // ---------------------------------------------------------------------
  // Sample sessions

  /** A printable letter: its value, then the letter itself. */
  lemma LetterLine()
    ensures Line(97) == "97 ('a')\r\n"
  {
    assert DecimalString(97) == "97";
  }

  /** A line feed, a control code: its value alone. */
  lemma NewlineLine()
    ensures Line(10) == "10\r\n"
  {
    assert DecimalString(10) == "10";
  }

  /** 'a' then a line feed, with no 'q': both lines, then "Quit". */
  lemma PrintableThenNewline()
    ensures Output([97, 10]) == "97 ('a')\r\n10\r\nQuit\r\n"
  {
    var input: seq<Ascii> := [97, 10];
    OutputWithoutQuit(input);
    TranscriptLast(input);
    TranscriptLast(input[..1]);
    assert input[..1][..0] == [];
    LetterLine();
    NewlineLine();
  }

  /** A space gets its marker and, being printable, its character. */
  lemma SpaceLine()
    ensures Line(Space) == "--SPACE--32 (' ')\r\n"
  {
    assert DecimalString(32) == "32";
  }

  /** A tab gets its marker and, being a control code, no character. */
  lemma TabLine()
    ensures Line(Tab) == "--TAB--9\r\n"
  {
    assert DecimalString(9) == "9";
  }

  /** An escape gets its marker and, being a control code, no character. */
  lemma EscLine()
    ensures Line(Esc) == "--ESC--27\r\n"
  {
    assert DecimalString(27) == "27";
  }

  /** A backspace (DEL) gets its marker; though above the space, it is a
      control code, so no character follows the value. */
  lemma BackLine()
    ensures Line(Backspace) == "--BACK--127\r\n"
  {
    assert DecimalString(12) == "12";
    assert DecimalString(127) == "127";
  }

  /** A 'q' alone: its own line, then "Quit". */
  lemma QuitAlone()
    ensures Output([Quit]) == "113 ('q')\r\nQuit\r\n"
  {
    var input: seq<Ascii> := [Quit];
    assert input[..1] == input;
    TranscriptLast(input);
    assert input[..0] == [];
    QuitLine();
  }
}

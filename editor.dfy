/** The line editor of UART_gets as pure functions of the characters that
    arrive before the line terminator: the index, the caller's buffer and
    the echo after each character, and the text the user has typed. */
module Editor {
  import opened CStrings

  /** The index limit of UART_gets: text goes to str[0..19), the final NUL to str[idx] with idx <= 19. */
  const Width: nat := 19

  /** Backspace (8) and DEL (127), both of which erase. */
  const Bs: char := 8 as char
  const Del: char := 127 as char

  /** The echo of an erase and of the line end (UART_puts of "\b \b" and of "\r\n"). */
  const EraseEcho: string := [Bs, ' ', Bs]
  const EndEcho: string := "\r\r\n"

  predicate IsEnd(c: char)
  {
    c == '\r' || c == '\n'
  }

  predicate IsErase(c: char)
  {
    c == Bs || c == Del
  }

  /** The characters gets stores: decimal digits and the point. */
  predicate Accepted(c: char)
  {
    '0' <= c <= '9' || c == '.'
  }

  /** Where the first line terminator of q is. */
  function LineEnd(q: string): (n: nat)
    requires exists k :: 0 <= k < |q| && IsEnd(q[k])
    ensures n < |q| && IsEnd(q[n])
    ensures forall k :: 0 <= k < n ==> !IsEnd(q[k])
  {
    if IsEnd(q[0]) then 0
    else
      assert exists k :: 0 <= k < |q[1..]| && IsEnd(q[1..][k]) by {
        var k :| 0 <= k < |q| && IsEnd(q[k]);
        assert k > 0 && IsEnd(q[1..][k - 1]);
      }
      1 + LineEnd(q[1..])
  }

  /** idx after one more (non-terminating) character. */
  function NextIndex(idx: nat, c: char): nat
  {
    if IsErase(c) && idx > 0 then idx - 1
    else if idx < Width && Accepted(c) then idx + 1
    else idx
  }

  /** idx after the characters cs: never above 19. */
  function Index(cs: string): (idx: nat)
    ensures idx <= Width
  {
    if cs == [] then 0 else NextIndex(Index(cs[..|cs| - 1]), cs[|cs| - 1])
  }

  /** The buffer r after one more (non-terminating) character when idx is
      i: an accepted character is stored at i, an erase puts a NUL at i - 1. */
  function Store(r: string, i: nat, c: char): string
  {
    if IsErase(c) && i > 0 && i - 1 < |r| then r[i - 1 := '\0']
    else if i < Width && Accepted(c) && i < |r| then r[i := c]
    else r
  }

  /** The caller's buffer after the characters cs, starting from b. */
  function Buffer(b: string, cs: string): (r: string)
    requires |b| > Width
    ensures |r| == |b|
  {
    if cs == [] then b else Store(Buffer(b, cs[..|cs| - 1]), Index(cs[..|cs| - 1]), cs[|cs| - 1])
  }

  /** What gets sends back for one character when idx is `idx`. */
  function StepEcho(idx: nat, c: char): string
  {
    if IsErase(c) && idx > 0 then EraseEcho
    else if idx < Width && Accepted(c) then [c]
    else []
  }

  /** Everything gets sends back for the characters cs. */
  function EchoOf(cs: string): string
  {
    if cs == [] then [] else EchoOf(cs[..|cs| - 1]) + StepEcho(Index(cs[..|cs| - 1]), cs[|cs| - 1])
  }

  /** The buffer when gets returns after `line` and a terminator. */
  function GetsBuffer(b: string, line: string): string
    requires |b| > Width
  {
    Buffer(b, line)[Index(line) := '\0']
  }

  /** The whole echo of gets for `line` and its terminator. */
  function GetsEcho(line: string): string
  {
    EchoOf(line) + EndEcho
  }

  /** The text the user has typed, as a line editor presents it: an
      accepted character appends while fewer than 19 are there, an erase
      removes the last one, anything else is ignored. */
  function Text(cs: string): (t: string)
    ensures |t| <= Width
    ensures forall k :: 0 <= k < |t| ==> Accepted(t[k])
  {
    if cs == [] then []
    else
      var t, c := Text(cs[..|cs| - 1]), cs[|cs| - 1];
      if IsErase(c) then (if t == [] then [] else t[..|t| - 1])
      else if Accepted(c) && |t| < Width then t + [c]
      else t
  }

  /** idx is always the length of the typed text. */
  lemma {:induction false} IndexIsLength(cs: string)
    ensures Index(cs) == |Text(cs)|
    decreases |cs|
  {
    if cs != [] {
      IndexIsLength(cs[..|cs| - 1]);
    }
  }

  /** str[0..idx) always holds the typed text. */
  lemma {:induction false} BufferHoldsText(b: string, cs: string)
    requires |b| > Width
    ensures Buffer(b, cs)[..Index(cs)] == Text(cs)
    decreases |cs|
  {
    if cs != [] {
      var pre := cs[..|cs| - 1];
      BufferHoldsText(b, pre);
      IndexIsLength(pre);
      IndexIsLength(cs);
    }
  }

  /** gets never writes at or beyond str[19] while reading the line. */
  lemma {:induction false} BufferUntouched(b: string, cs: string)
    requires |b| > Width
    ensures forall k :: Width <= k < |b| ==> Buffer(b, cs)[k] == b[k]
    decreases |cs|
  {
    if cs != [] {
      BufferUntouched(b, cs[..|cs| - 1]);
    }
  }

  /** On return the caller's C string is exactly the typed text, the NUL
      sits at str[idx], and nothing from str[20] on has changed. */
  lemma GetsResult(b: string, line: string)
    requires |b| > Width
    ensures var r := GetsBuffer(b, line);
      |r| == |b| && r[..Index(line)] == Text(line) && r[Index(line)] == '\0' &&
      CString(r) == Text(line) &&
      (forall k :: Width < k < |b| ==> r[k] == b[k])
  {
    var r := GetsBuffer(b, line);
    var i := Index(line);
    BufferHoldsText(b, line);
    BufferUntouched(b, line);
    assert r[..i] == Text(line);
    assert r == r[..i] + r[i..];
    CStringOf(r[..i], r[i..]);
  }

  /** A line of accepted characters only is truncated to its first 19. */
  lemma {:induction false} TextOfPlainLine(cs: string)
    requires forall k :: 0 <= k < |cs| ==> Accepted(cs[k])
    ensures Text(cs) == if |cs| <= Width then cs else cs[..Width]
    decreases |cs|
  {
    if cs != [] {
      var pre := cs[..|cs| - 1];
      TextOfPlainLine(pre);
      if |cs| <= Width {
        assert cs == pre + [cs[|cs| - 1]];
      } else if |pre| > Width {
        assert pre[..Width] == cs[..Width];
      }
    }
  }

  /** A terminal line: its characters and the cursor column. */
  datatype Screen = Screen(row: string, col: nat)

  /** A terminal receiving one character: backspace moves the cursor left,
      anything else is written under the cursor, which then moves right. */
  function Put(s: Screen, c: char): Screen
  {
    if c == Bs then Screen(s.row, if s.col > 0 then s.col - 1 else 0)
    else if s.col < |s.row| then Screen(s.row[s.col := c], s.col + 1)
    else Screen(s.row + [c], s.col + 1)
  }

  /** The terminal after receiving e on an empty line. */
  function Show(e: string): (s: Screen)
    ensures s.col <= |s.row|
  {
    if e == [] then Screen([], 0) else Put(Show(e[..|e| - 1]), e[|e| - 1])
  }

  /** The screen shows the typed text, the cursor just after it. */
  predicate Displays(s: Screen, t: string)
  {
    s.col == |t| <= |s.row| && s.row[..s.col] == t &&
    forall k :: s.col <= k < |s.row| ==> s.row[k] == ' '
  }

  lemma ShowSnoc(e: string, c: char)
    ensures Show(e + [c]) == Put(Show(e), c)
  {
    assert (e + [c])[..|e|] == e;
  }

  /** The erase echo takes the last character off the screen. */
  lemma EraseShown(s: Screen, t: string)
    requires Displays(s, t) && t != []
    ensures Displays(Put(Put(Put(s, Bs), ' '), Bs), t[..|t| - 1])
  {
    var s1 := Put(s, Bs);
    assert s1 == Screen(s.row, |t| - 1);
    var s2 := Put(s1, ' ');
    assert s2 == Screen(s.row[|t| - 1 := ' '], |t|);
  }

  /** An echoed character is appended after the typed text. */
  lemma AppendShown(s: Screen, t: string, c: char)
    requires Displays(s, t) && c != Bs
    ensures Displays(Put(s, c), t + [c])
  {
  }

  lemma ShowErase(e: string)
    ensures Show(e + EraseEcho) == Put(Put(Put(Show(e), Bs), ' '), Bs)
  {
    ShowSnoc(e, Bs);
    ShowSnoc(e + [Bs], ' ');
    ShowSnoc(e + [Bs, ' '], Bs);
    assert e + EraseEcho == e + [Bs, ' '] + [Bs];
    assert e + [Bs] + [' '] == e + [Bs, ' '];
  }

  /** The echo keeps the terminal in step with the buffer: after any
      characters the terminal shows the typed text followed only by blanks. */
  lemma {:induction false} EchoShowsText(cs: string)
    ensures Displays(Show(EchoOf(cs)), Text(cs))
    decreases |cs|
  {
    if cs != [] {
      var pre, c := cs[..|cs| - 1], cs[|cs| - 1];
      EchoShowsText(pre);
      IndexIsLength(pre);
      var e := EchoOf(pre);
      var t := Text(pre);
      if IsErase(c) && t != [] {
        ShowErase(e);
        EraseShown(Show(e), t);
      } else if !IsErase(c) && Accepted(c) && |t| < Width {
        ShowSnoc(e, c);
        AppendShown(Show(e), t, c);
      } else {
        assert EchoOf(cs) == e;
      }
    }
  }

  lemma GetsExampleDecimal()
    ensures Text("12.5") == "12.5" && EchoOf("12.5") == "12.5"
  {
    TextOfPlainLine("12.5");
    assert "12.5"[..3] == "12." && "12."[..2] == "12" && "12"[..1] == "1" && "1"[..0] == "";
    IndexIsLength("1");
    IndexIsLength("12");
    IndexIsLength("12.");
    assert EchoOf("1") == "1";
    assert EchoOf("12") == "12";
    assert EchoOf("12.") == "12.";
  }

  /** Typing 9, backspace, 3 leaves "3" and echoes 9, the erase, then 3. */
  lemma GetsExampleErase()
    ensures Text(['9', Bs, '3']) == "3"
    ensures EchoOf(['9', Bs, '3']) == ['9'] + EraseEcho + ['3']
  {
    var cs := ['9', Bs, '3'];
    assert cs[..2] == ['9', Bs] && cs[..2][..1] == ['9'] && ['9'][..0] == [];
    assert Index(['9']) == 1 && Text(['9']) == "9" && EchoOf(['9']) == "9";
    assert Index(['9', Bs]) == 0 && Text(['9', Bs]) == "";
    assert EchoOf(['9', Bs]) == ['9'] + EraseEcho;
  }

  /** An erase at the start of the line and any other character are ignored. */
  lemma GetsExampleIgnored()
    ensures Text([Bs, 'a', '7']) == "7" && EchoOf([Bs, 'a', '7']) == "7"
  {
    var cs := [Bs, 'a', '7'];
    assert cs[..2] == [Bs, 'a'] && cs[..2][..1] == [Bs] && [Bs][..0] == [];
    assert Index([Bs]) == 0 && Text([Bs]) == "" && EchoOf([Bs]) == "";
    assert Index([Bs, 'a']) == 0 && Text([Bs, 'a']) == "" && EchoOf([Bs, 'a']) == "";
  }
}

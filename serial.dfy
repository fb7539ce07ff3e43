/** The driver of UART.c over abstract hardware: per USART the configuration
    registers, what has been transmitted and what is waiting to be received,
    plus the static parity table. */
module Serial {
  import opened Numeric
  import opened Config
  import opened CStrings
  import Editor
  import Ansi

  /** One USART: its configuration registers, every byte written to UDRn so
      far, and the bytes that will arrive in UDRn, oldest first. */
  datatype Port = Port(regs: Regs, sent: string, pending: string)

  /** The ports every switch of UART.c has a case for. */
  predicate Supported(com: u8)
  {
    com == 0 || com == 2 || com == 3
  }

  /** The ports after transmitting s on com: only that port's output grows,
      and an unsupported com sends nothing. */
  function Emit(ports: map<u8, Port>, com: u8, s: string): map<u8, Port>
  {
    if Supported(com) && com in ports then ports[com := ports[com].(sent := ports[com].sent + s)] else ports
  }

  /** Sending a and then b is sending a + b. */
  lemma EmitConcat(ports: map<u8, Port>, com: u8, a: string, b: string)
    ensures Emit(Emit(ports, com, a), com, b) == Emit(ports, com, a + b)
  {
    if Supported(com) && com in ports {
      assert ports[com].sent + a + b == ports[com].sent + (a + b);
    }
  }

  /** Sending nothing changes nothing. */
  lemma EmitNothing(ports: map<u8, Port>, com: u8)
    ensures Emit(ports, com, []) == ports
  {
    if Supported(com) && com in ports {
      assert ports[com].sent + [] == ports[com].sent;
      assert ports[com := ports[com]] == ports;
    }
  }

  /** Four pieces sent one after the other. */
  lemma EmitFour(ports: map<u8, Port>, com: u8, a: string, b: string, c: string, d: string)
    ensures Emit(Emit(Emit(Emit(ports, com, a), com, b), com, c), com, d) == Emit(ports, com, a + b + c + d)
  {
    EmitConcat(ports, com, a, b);
    EmitConcat(ports, com, a + b, c);
    EmitConcat(ports, com, a + b + c, d);
  }

  /** Transmitting changes nothing but the output of com, and nothing at all
      on an unsupported port. */
  lemma EmitFrame(ports: map<u8, Port>, com: u8, s: string)
    ensures var r := Emit(ports, com, s);
      r.Keys == ports.Keys &&
      (forall p :: p in ports && p != com ==> r[p] == ports[p]) &&
      (!Supported(com) ==> r == ports) &&
      (Supported(com) && com in ports ==>
        r[com].sent == ports[com].sent + s && r[com].regs == ports[com].regs && r[com].pending == ports[com].pending)
  {
  }

  /** The ports with rest as the bytes still to arrive on com. */
  function Awaiting(ports: map<u8, Port>, com: u8, rest: string): map<u8, Port>
  {
    if com in ports then ports[com := ports[com].(pending := rest)] else ports
  }

  lemma AwaitingNothing(ports: map<u8, Port>, com: u8, q: string)
    requires com in ports && q == ports[com].pending
    ensures Emit(Awaiting(ports, com, q[0..]), com, q[..0]) == ports
  {
    assert q[0..] == q && q[..0] == [];
    assert Awaiting(ports, com, q) == ports;
    EmitNothing(ports, com);
  }

  /** Taking the oldest byte commutes with what has been sent. */
  lemma AwaitingPop(ports: map<u8, Port>, com: u8, q: string, k: nat, echo: string)
    requires com in ports && k < |q|
    ensures var p := Emit(Awaiting(ports, com, q[k..]), com, echo);
      p[com].pending == q[k..] && p[com].pending != [] && p[com].pending[0] == q[k] &&
      p[com := p[com].(pending := p[com].pending[1..])] == Emit(Awaiting(ports, com, q[k + 1..]), com, echo)
  {
    assert q[k..][1..] == q[k + 1..];
  }

  /** A string buffer written by itoa in base 10 is sent as the decimal digits. */
  lemma DecimalBuffer(a: string, v: u16)
    requires |ItoaString(v, 10)| < |a|
    requires a[..|ItoaString(v, 10)|] == ItoaString(v, 10) && a[|ItoaString(v, 10)|] == '\0'
    ensures Crlf(CString(a)) == ItoaString(v, 10)
  {
    var s := ItoaString(v, 10);
    Ansi.DecimalPlain(v);
    assert a == s + a[|s|..];
    CStringOf(s, a[|s|..]);
    CrlfNoLf(s);
  }

  class Uart {
    /** _uart_parity: the parity mode last given to UART_Ini, per com. */
    const parity: array<u8>
    /** The three USARTs. */
    var ports: map<u8, Port>

    ghost predicate Valid()
      reads this
    {
      parity.Length == 4 && ports.Keys == {0, 2, 3}
    }

    /** The driver at reset: the parity table zeroed, nothing sent yet, and
        the given bytes about to arrive on each port. */
    constructor (init: Regs, input0: string, input2: string, input3: string)
      ensures Valid() && fresh(parity)
      ensures parity[..] == [0, 0, 0, 0]
      ensures ports == map[0 := Port(init, [], input0), 2 := Port(init, [], input2), 3 := Port(init, [], input3)]
    {
      parity := new u8[4](_ => 0);
      ports := map[0 := Port(init, [], input0), 2 := Port(init, [], input2), 3 := Port(init, [], input3)];
    }

    /** UART_Ini: records the parity mode for any com below 4, and on a
        supported port writes the divisor, the enable byte and the frame
        byte, the latter built up with or-assignments. */
    method Ini(com: u8, baud: u32, size: u8, par: u8, stop: u8)
      requires Valid() && com < 4 && Prescaled(baud) != 0
      modifies this, parity
      ensures Valid()
      ensures parity[com] == par
      ensures forall k :: 0 <= k < 4 && k != com ==> parity[k] == old(parity[k])
      ensures ports == if Supported(com) then old(ports)[com := old(ports)[com].(regs := Configured(baud, size, par, stop))] else old(ports)
    {
      var ubrr: u16 := Divisor(baud);
      parity[com] := par;
      if Supported(com) {
        var c: bv8 := (if size == 8 then Bit(UCSZ1) else 0) | (if size >= 8 then Bit(UCSZ0) else 0);
        ghost var c0 := c;
        if par == 1 {
          c := c | Bit(UPM1) | Bit(UPM0);
        } else if par == 2 {
          c := c | Bit(UPM1);
        }
        assert c == WithParity(c0, par);
        ghost var c1 := c;
        if stop == 2 {
          c := c | Bit(USBS);
        }
        assert c == WithStop(c1, stop);
        ports := ports[com := ports[com].(regs := Regs(High(ubrr), Low(ubrr), EnableByte, c))];
      }
    }

    /** _uart_tx: the byte goes out on a supported port; otherwise nothing happens. */
    method Tx(com: u8, data: char)
      requires Valid()
      modifies this
      ensures Valid() && ports == Emit(old(ports), com, [data])
    {
      if Supported(com) {
        ports := ports[com := ports[com].(sent := ports[com].sent + [data])];
      }
    }

    /** UART_putchar. */
    method Putchar(com: u8, data: char)
      requires Valid()
      modifies this
      ensures Valid() && ports == Emit(old(ports), com, [data])
    {
      Tx(com, data);
    }

    /** UART_puts: the C string s, a CR sent before each LF. */
    method Puts(com: u8, s: string)
      requires Valid()
      modifies this
      ensures Valid() && ports == Emit(old(ports), com, Crlf(CString(s)))
    {
      var i: nat := 0;
      EmitNothing(ports, com);
      assert s[..0] == [];
      while i < |s| && s[i] != '\0'
        invariant Valid() && i <= |s|
        invariant forall k :: 0 <= k < i ==> s[k] != '\0'
        invariant ports == Emit(old(ports), com, Crlf(s[..i]))
      {
        PutsChar(com, s[i]);
        CrlfSnoc(s, i);
        EmitConcat(old(ports), com, Crlf(s[..i]), Crlf([s[i]]));
        i := i + 1;
      }
      if i == |s| {
        assert s[..i] == s;
        CStringWhole(s);
      } else {
        assert s == s[..i] + s[i..];
        CStringOf(s[..i], s[i..]);
      }
    }

    /** One character of UART_puts: an LF goes out as CR LF. */
    method PutsChar(com: u8, c: char)
      requires Valid()
      modifies this
      ensures Valid() && ports == Emit(old(ports), com, Crlf([c]))
    {
      assert [c][..0] == [];
      assert Crlf([c]) == Crlf([]) + if c == '\n' then "\r\n" else [c];
      if c == '\n' {
        Tx(com, '\r');
        Tx(com, c);
        EmitConcat(old(ports), com, "\r", [c]);
        assert "\r" + [c] == "\r\n" == Crlf([c]);
      } else {
        assert Crlf([c]) == [c];
        Tx(com, c);
      }
    }

    /** UART_available: the RXCn flag of a supported port, set while a byte
        is waiting; 0 for any other com. */
    function Available(com: u8): (r: u8)
      reads this
      requires Valid()
      ensures r != 0 <==> Supported(com) && ports[com].pending != []
    {
      if Supported(com) && ports[com].pending != [] then Bit(RXC) as int else 0
    }

    /** UART_getchar: takes the oldest waiting byte. It only returns once
        UART_available is non-zero, which is required here. */
    method Getchar(com: u8) returns (c: char)
      requires Valid() && Available(com) != 0
      modifies this
      ensures Valid() && c == old(ports[com].pending[0])
      ensures ports == old(ports)[com := old(ports[com]).(pending := old(ports[com].pending[1..]))]
    {
      c := ports[com].pending[0];
      ports := ports[com := ports[com].(pending := ports[com].pending[1..])];
    }

    /** UART_gets: reads up to and including the first CR or LF, editing str
        and echoing as it goes. It only returns after a terminator, so one
        must be among the waiting bytes. */
    method Gets(com: u8, str: array<char>)
      requires Valid() && Supported(com) && str.Length > Editor.Width
      requires exists k :: 0 <= k < |ports[com].pending| && Editor.IsEnd(ports[com].pending[k])
      modifies this, str
      ensures Valid()
      ensures var q := old(ports[com].pending); var n := Editor.LineEnd(q);
        str[..] == Editor.GetsBuffer(old(str[..]), q[..n]) &&
        ports == Emit(Awaiting(old(ports), com, q[n + 1..]), com, Editor.GetsEcho(q[..n]))
    {
      ghost var q := ports[com].pending;
      ghost var n := Editor.LineEnd(q);
      ghost var b := str[..];
      var idx: nat := 0;
      ghost var k: nat := 0;
      AwaitingNothing(old(ports), com, q);
      while true
        invariant Valid() && k <= n
        invariant idx == Editor.Index(q[..k])
        invariant str[..] == Editor.Buffer(b, q[..k])
        invariant ports == Emit(Awaiting(old(ports), com, q[k..]), com, Editor.EchoOf(q[..k]))
        decreases n - k
      {
        ghost var echo := Editor.EchoOf(q[..k]);
        ghost var mid := Awaiting(old(ports), com, q[k + 1..]);
        AwaitingPop(old(ports), com, q, k, echo);
        var c := Getchar(com);
        assert c == q[k];
        assert ports == Emit(mid, com, echo);
        if c == '\r' || c == '\n' {
          assert k == n;
          ghost var line := q[..k];
          Finish(com, str, idx);
          EmitConcat(mid, com, echo, Editor.EndEcho);
          assert str[..] == Editor.GetsBuffer(b, line);
          assert ports == Emit(Awaiting(old(ports), com, q[n + 1..]), com, Editor.GetsEcho(line));
          assert q == old(ports[com].pending) && b == old(str[..]);
          break;
        }
        assert k < n by {
          assert !Editor.IsEnd(q[k]) && Editor.IsEnd(q[n]);
        }
        idx := Advance(com, str, idx, c, b, q, k, mid);
        k := k + 1;
      }
    }

    /** The end of UART_gets: the NUL at str[idx], then CR LF sent. */
    method Finish(com: u8, str: array<char>, idx: nat)
      requires Valid() && idx < str.Length
      modifies this, str
      ensures Valid() && str[..] == old(str[..])[idx := '\0']
      ensures ports == Emit(old(ports), com, Editor.EndEcho)
    {
      str[idx] := '\0';
      Puts(com, "\r\n");
      CStringWhole("\r\n");
      CrlfOfCrLf();
    }

    /** One pass of the loop of UART_gets for the k-th byte of the line:
        index, buffer and echo move from q[..k] to q[..k + 1]. */
    method Advance(com: u8, str: array<char>, idx: nat, c: char,
                   ghost b: string, ghost q: string, ghost k: nat, ghost mid: map<u8, Port>)
        returns (next: nat)
      requires Valid() && |b| > Editor.Width && str.Length == |b|
      requires k < |q| && c == q[k] && !Editor.IsEnd(c)
      requires idx == Editor.Index(q[..k]) && str[..] == Editor.Buffer(b, q[..k])
      requires ports == Emit(mid, com, Editor.EchoOf(q[..k]))
      modifies this, str
      ensures Valid() && next == Editor.Index(q[..k + 1])
      ensures str[..] == Editor.Buffer(b, q[..k + 1])
      ensures ports == Emit(mid, com, Editor.EchoOf(q[..k + 1]))
    {
      GetsStep(b, q, k);
      EmitConcat(mid, com, Editor.EchoOf(q[..k]), Editor.StepEcho(idx, c));
      next := Edit(com, str, idx, c);
    }

    /** The body of the loop of UART_gets for a byte that is not a terminator. */
    method Edit(com: u8, str: array<char>, idx: nat, c: char) returns (next: nat)
      requires Valid() && str.Length > Editor.Width && idx <= Editor.Width && !Editor.IsEnd(c)
      modifies this, str
      ensures Valid() && next == Editor.NextIndex(idx, c)
      ensures str[..] == Editor.Store(old(str[..]), idx, c)
      ensures ports == Emit(old(ports), com, Editor.StepEcho(idx, c))
    {
      next := idx;
      if (c == 8 as char || c == 127 as char) && next > 0 {
        next := next - 1;
        str[next] := '\0';
        Puts(com, Editor.EraseEcho);
        CrlfNoLf(Editor.EraseEcho);
        CStringWhole(Editor.EraseEcho);
      } else if next < 19 && (('0' <= c <= '9') || c == '.') {
        str[next] := c;
        next := next + 1;
        Tx(com, c);
      } else {
        EmitNothing(ports, com);
      }
    }

    /** UART_clrscr. */
    method Clrscr(com: u8)
      requires Valid()
      modifies this
      ensures Valid() && ports == Emit(old(ports), com, Ansi.ClearScreen)
    {
      Puts(com, Ansi.ClearScreen);
      Ansi.ClearScreenPlain();
      CStringWhole(Ansi.ClearScreen);
    }

    /** UART_setColor: the colour index must be within _ansi_colors. */
    method SetColor(com: u8, color: u8)
      requires Valid() && color < 3
      modifies this
      ensures Valid() && ports == Emit(old(ports), com, Ansi.ColorSeq(color))
    {
      var buf := new char[8];
      ghost var p0 := ports;
      Puts(com, Ansi.Csi);
      CsiSent();
      PutsDecimal(com, Ansi.Colors[color], buf);
      Tx(com, 'm');
      EmitThree(p0, com, Ansi.Csi, ItoaString(Ansi.Colors[color], 10), "m");
    }

    /** UART_gotoxy: the line y first, then the column x. */
    method Gotoxy(com: u8, x: u8, y: u8)
      requires Valid()
      modifies this
      ensures Valid() && ports == Emit(old(ports), com, Ansi.CursorSeq(x, y))
    {
      var buf := new char[8];
      ghost var p0 := ports;
      Puts(com, Ansi.Csi);
      CsiSent();
      PutsDecimal(com, y, buf);
      Tx(com, ';');
      PutsDecimal(com, x, buf);
      Tx(com, 'H');
      EmitFive(p0, com, Ansi.Csi, ItoaString(y, 10), ";", ItoaString(x, 10), "H");
    }

    /** Writes v in decimal into the buffer with itoa, then sends the buffer with puts. */
    method PutsDecimal(com: u8, v: u8, buf: array<char>)
      requires Valid() && buf.Length == 8
      modifies this, buf
      ensures Valid() && ports == Emit(old(ports), com, ItoaString(v, 10))
    {
      ItoaByteDecimal(v);
      Itoa(v, buf, 10);
      DecimalBuffer(buf[..], v);
      Puts(com, buf[..]);
    }
  }

  lemma CsiSent()
    ensures Crlf(CString(Ansi.Csi)) == Ansi.Csi
  {
    CStringWhole(Ansi.Csi);
    CrlfNoLf(Ansi.Csi);
  }

  lemma EmitThree(p: map<u8, Port>, com: u8, a: string, b: string, c: string)
    ensures Emit(Emit(Emit(p, com, a), com, b), com, c) == Emit(p, com, a + b + c)
  {
    EmitConcat(p, com, a, b);
    EmitConcat(p, com, a + b, c);
  }

  lemma EmitFive(p: map<u8, Port>, com: u8, a: string, b: string, c: string, d: string, e: string)
    ensures Emit(Emit(Emit(Emit(Emit(p, com, a), com, b), com, c), com, d), com, e) == Emit(p, com, a + b + c + d + e)
  {
    EmitFour(p, com, a, b, c, d);
    EmitConcat(p, com, a + b + c + d, e);
  }

  lemma CrlfSnoc(s: string, i: nat)
    requires i < |s|
    ensures Crlf(s[..i + 1]) == Crlf(s[..i]) + Crlf([s[i]])
  {
    assert s[..i + 1] == s[..i] + [s[i]];
    CrlfConcat(s[..i], [s[i]]);
  }

  /** One character of the line, as the loop of UART_gets sees it. */
  lemma GetsStep(b: string, q: string, k: nat)
    requires |b| > Editor.Width && k < |q|
    ensures Editor.Index(q[..k + 1]) == Editor.NextIndex(Editor.Index(q[..k]), q[k])
    ensures Editor.Buffer(b, q[..k + 1]) == Editor.Store(Editor.Buffer(b, q[..k]), Editor.Index(q[..k]), q[k])
    ensures Editor.EchoOf(q[..k + 1]) == Editor.EchoOf(q[..k]) + Editor.StepEcho(Editor.Index(q[..k]), q[k])
  {
    assert q[..k + 1][..k] == q[..k];
  }
}

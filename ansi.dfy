/** The ECMA-48 control sequences of UART_clrscr, UART_setColor and
    UART_gotoxy, with their numeric parameters written by itoa. */
module Ansi {
  import opened Numeric
  import opened CStrings

  const Esc: char := 27 as char

  /** CSI, the Control Sequence Introducer in its 7-bit form ESC [ (ECMA-48 section 5.4). */
  const Csi: string := [Esc, '[']

  /** _ansi_colors: the SGR foreground codes yellow, green and blue (ECMA-48 section 8.3.117). */
  const Colors: seq<u8> := [33, 32, 34]

  /** UART_clrscr: ED with parameter 2, the whole display (ECMA-48 section 8.3.39),
      then CUP without parameters, the home position (ECMA-48 section 8.3.21). */
  const ClearScreen: string := Csi + "2J" + Csi + "H"

  /** UART_setColor: SGR with the colour's code as its one parameter. */
  function ColorSeq(color: nat): string
    requires color < |Colors|
  {
    Csi + ItoaString(Colors[color], 10) + "m"
  }

  /** UART_gotoxy: CUP, the line (y) first and the column (x) second. */
  function CursorSeq(x: u8, y: u8): string
  {
    Csi + ItoaString(y, 10) + ";" + ItoaString(x, 10) + "H"
  }

  lemma Itoa2Digits(v: u16)
    requires 10 <= v < 100
    ensures ItoaString(v, 10) == [DigitChar(v / 10), DigitChar(v % 10)]
  {
    assert Digits(v / 10, 10) == [v / 10];
    assert Digits(v, 10) == [v / 10, v % 10];
    assert Spell([v / 10, v % 10])[..1] == Spell([v / 10]);
    assert [v / 10, v % 10][..1] == [v / 10];
  }

  /** The three colours come out as ESC [33m, ESC [32m and ESC [34m. */
  lemma ColorSeqForms()
    ensures ColorSeq(0) == Csi + "33m"
    ensures ColorSeq(1) == Csi + "32m"
    ensures ColorSeq(2) == Csi + "34m"
  {
    Itoa2Digits(33);
    Itoa2Digits(32);
    Itoa2Digits(34);
  }

  /** A decimal field of CUP reads back, with atoi, as the coordinate it encodes. */
  lemma CursorParams(x: u8, y: u8)
    ensures var s := CursorSeq(x, y); var dy := |ItoaString(y, 10)|;
      s[..2] == Csi && s[2 + dy] == ';' && s[|s| - 1] == 'H' &&
      AtoiValue(s[2..]) == y && AtoiValue(s[3 + dy..]) == x
  {
    var ty, tx := ItoaString(y, 10), ItoaString(x, 10);
    CursorFields(ty, tx);
    AtoiItoa(y, ";" + tx + "H");
    AtoiItoa(x, "H");
  }

  /** Where the pieces of a CUP sequence with fields ty and tx sit. */
  lemma CursorFields(ty: string, tx: string)
    ensures var s := Csi + ty + ";" + tx + "H";
      s[..2] == Csi && s[2 + |ty|] == ';' && s[|s| - 1] == 'H' &&
      s[2..] == ty + (";" + tx + "H") && s[3 + |ty|..] == tx + "H"
  {
    var s := Csi + ty + ";" + tx + "H";
    assert s == Csi + (ty + (";" + (tx + "H")));
    assert s[2..] == ty + (";" + (tx + "H"));
    assert ";" + tx + "H" == ";" + (tx + "H");
    assert s[2..][|ty|..] == ";" + (tx + "H");
  }

  /** The parameter of SGR reads back as the colour code. */
  lemma ColorParam(color: nat)
    requires color < |Colors|
    ensures var s := ColorSeq(color);
      s[..2] == Csi && s[|s| - 1] == 'm' && AtoiValue(s[2..]) == Colors[color]
  {
    var s := ColorSeq(color);
    assert s[2..] == ItoaString(Colors[color], 10) + "m";
    AtoiItoa(Colors[color], "m");
  }

  /** Digits are neither NUL nor LF. */
  lemma DecimalPlain(v: u16)
    ensures forall k :: 0 <= k < |ItoaString(v, 10)| ==>
      ItoaString(v, 10)[k] != '\0' && ItoaString(v, 10)[k] != '\n'
  {
    ItoaDecimal(v);
  }

  /** None of the sequences holds an LF, so UART_puts sends them unchanged. */
  lemma ClearScreenPlain()
    ensures Crlf(ClearScreen) == ClearScreen
  {
    CrlfNoLf(ClearScreen);
  }

  /** A decimal field is sent unchanged. */
  lemma DecimalSent(v: u16)
    ensures Crlf(ItoaString(v, 10)) == ItoaString(v, 10)
  {
    DecimalPlain(v);
    CrlfNoLf(ItoaString(v, 10));
  }

  lemma ColorSeqPlain(color: nat)
    requires color < |Colors|
    ensures Crlf(ColorSeq(color)) == ColorSeq(color)
  {
    var d := ItoaString(Colors[color], 10);
    DecimalSent(Colors[color]);
    CrlfNoLf(Csi);
    CrlfNoLf("m");
    CrlfConcat(Csi, d);
    CrlfConcat(Csi + d, "m");
  }

  lemma CursorSeqPlain(x: u8, y: u8)
    ensures Crlf(CursorSeq(x, y)) == CursorSeq(x, y)
  {
    var dy, dx := ItoaString(y, 10), ItoaString(x, 10);
    DecimalSent(y);
    DecimalSent(x);
    CrlfNoLf(Csi);
    CrlfNoLf(";");
    CrlfNoLf("H");
    CrlfConcat(Csi, dy);
    CrlfConcat(Csi + dy, ";");
    CrlfConcat(Csi + dy + ";", dx);
    CrlfConcat(Csi + dy + ";" + dx, "H");
  }
}

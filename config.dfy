/** The register values UART_Ini computes: the baud-rate divisor split into
    UBRRnH/UBRRnL, the enable byte UCSRnB and the frame-control byte UCSRnC. */
module Config {
  import opened Numeric

  type u32 = x: int | 0 <= x < 0x1_0000_0000

  /** F_CPU, the clock the divisor is computed for. */
  const FCpu: nat := 16_000_000

  /** Bit positions in UCSRnB and UCSRnC, the same for ports 0, 2 and 3. */
  const RXEN: nat := 4
  const TXEN: nat := 3
  const UCSZ0: nat := 1
  const UCSZ1: nat := 2
  const USBS: nat := 3
  const UPM0: nat := 4
  const UPM1: nat := 5
  /** The receive-complete flag of UCSRnA. */
  const RXC: nat := 7

  /** The register byte with only bit p set. */
  function Bit(p: nat): bv8
    requires p < 8
  {
    (1 as bv8) << p
  }

  /** The configuration registers of one USART. */
  datatype Regs = Regs(ubrrH: u8, ubrrL: u8, ucsrB: bv8, ucsrC: bv8)

  /** Sixteen times the baud rate, in 32-bit unsigned arithmetic. */
  function Prescaled(baud: u32): u32
  {
    (16 * baud) % 0x1_0000_0000
  }

  /** The baud-rate divisor: F_CPU divided by sixteen times the baud rate,
      less one, in unsigned 32-bit arithmetic, then truncated to 16 bits. */
  function Divisor(baud: u32): u16
    requires Prescaled(baud) != 0
  {
    (FCpu / Prescaled(baud) - 1) % 0x1_0000
  }

  /** The standard 9600 baud gives UBRR 103. */
  lemma DivisorAt9600()
    ensures Divisor(9600) == 103
  {
    assert Prescaled(9600) == 153600;
    assert FCpu / 153600 == 104;
  }

  /** From 16 to 1_000_000 baud the divisor is the largest n with
      (n + 1) * 16 * baud <= F_CPU, so no wrap-around happens. */
  lemma DivisorFloor(baud: u32)
    requires 16 <= baud <= 1_000_000
    ensures Prescaled(baud) == 16 * baud
    ensures (Divisor(baud) + 1) * (16 * baud) <= FCpu < (Divisor(baud) + 2) * (16 * baud)
  {
    var p := 16 * baud;
    QuotientBounds(FCpu, p);
    QuotientAtMost(p);
    assert Divisor(baud) == FCpu / p - 1;
  }

  /** Euclidean division: n / p is the largest q with q * p <= n. */
  lemma QuotientBounds(n: nat, p: nat)
    requires 0 < p <= n
    ensures 1 <= n / p
    ensures (n / p) * p <= n < (n / p + 1) * p
  {
    var q, r := n / p, n % p;
    assert n == q * p + r && r < p;
    assert q * p > 0;
  }

  /** A prescaled rate of at least 256 leaves a quotient that fits 16 bits. */
  lemma QuotientAtMost(p: nat)
    requires 256 <= p <= FCpu
    ensures FCpu / p <= 62_500
  {
    var q := FCpu / p;
    QuotientBounds(FCpu, p);
    MulLeft(q, 256, p);
  }

  lemma MulLeft(q: nat, a: nat, b: nat)
    requires a <= b
    ensures q * a <= q * b
  {
    assert q * b == q * a + q * (b - a);
  }

  /** Above 1_000_000 baud the quotient is 0 and 0 - 1 wraps to 65535. */
  lemma DivisorWraps(baud: u32)
    requires 1_000_000 < baud && 16 * baud < 0x1_0000_0000
    ensures Divisor(baud) == 0xFFFF
  {
    assert Prescaled(baud) == 16 * baud > FCpu;
  }

  /** The high byte of the divisor, written to UBRRnH. */
  function High(ubrr: u16): u8
  {
    ubrr / 0x100
  }

  /** The low byte of the divisor: UBRRnL keeps only its 8 low bits. */
  function Low(ubrr: u16): u8
  {
    ubrr % 0x100
  }

  /** The two register bytes recombine to the divisor. */
  lemma SplitDivisor(ubrr: u16)
    ensures High(ubrr) * 0x100 + Low(ubrr) == ubrr
  {
  }

  /** The enable byte for UCSRnB: the receiver and transmitter bits. */
  const EnableByte: bv8 := Bit(RXEN) | Bit(TXEN)

  /** UCSRnB switches on the receiver and the transmitter and nothing else. */
  lemma EnableByteBits()
    ensures forall p :: 0 <= p < 8 ==> (EnableByte & Bit(p) != 0 <==> p == RXEN || p == TXEN)
  {
    forall p | 0 <= p < 8
      ensures EnableByte & Bit(p) != 0 <==> p == RXEN || p == TXEN
    {
      assert EnableByte == 0x18;
      assert p == 0 || p == 1 || p == 2 || p == 3 || p == 4 || p == 5 || p == 6 || p == 7;
    }
  }

  /** The value UART_Ini leaves in UCSRnC: the character-size bits, then
      the parity bits and the stop bit or-ed in. */
  function ControlByte(size: u8, parity: u8, stop: u8): bv8
  {
    WithStop(WithParity(SizeBits(size), parity), stop)
  }

  /** The character-size bits: UCSZn1 for 8 bits, UCSZn0 for 8 bits or more. */
  function SizeBits(size: u8): bv8
  {
    (if size == 8 then Bit(UCSZ1) else 0) | (if size >= 8 then Bit(UCSZ0) else 0)
  }

  /** Or-ing in the parity bits: UPMn1 and UPMn0 for mode 1, UPMn1 alone for mode 2. */
  function WithParity(c: bv8, parity: u8): bv8
  {
    if parity == 1 then c | Bit(UPM1) | Bit(UPM0) else if parity == 2 then c | Bit(UPM1) else c
  }

  /** Or-ing in USBSn for two stop bits. */
  function WithStop(c: bv8, stop: u8): bv8
  {
    if stop == 2 then c | Bit(USBS) else c
  }

  /** Each bit of UCSRnC is set exactly when its argument asks for it, and
      no other bit is set. */
  lemma ControlByteBits(size: u8, parity: u8, stop: u8)
    ensures var c := ControlByte(size, parity, stop);
      (c & Bit(UCSZ1) != 0 <==> size == 8) &&
      (c & Bit(UCSZ0) != 0 <==> size >= 8) &&
      (c & Bit(UPM1) != 0 <==> parity == 1 || parity == 2) &&
      (c & Bit(UPM0) != 0 <==> parity == 1) &&
      (c & Bit(USBS) != 0 <==> stop == 2) &&
      c & !(Bit(UCSZ1) | Bit(UCSZ0) | Bit(UPM1) | Bit(UPM0) | Bit(USBS)) == 0
  {
    assert Bit(UCSZ1) == 0x04 && Bit(UCSZ0) == 0x02 && Bit(UPM1) == 0x20;
    assert Bit(UPM0) == 0x10 && Bit(USBS) == 0x08;
  }

  /** The four registers UART_Ini writes for a supported port. */
  function Configured(baud: u32, size: u8, parity: u8, stop: u8): Regs
    requires Prescaled(baud) != 0
  {
    Regs(High(Divisor(baud)), Low(Divisor(baud)), EnableByte, ControlByte(size, parity, stop))
  }
}

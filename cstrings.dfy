/** C strings as character sequences, and the LF to CR LF translation of
    UART_puts. A C string ends at its first NUL; a sequence without a NUL
    stands for a string whose NUL lies just past its end. */
module CStrings {

  /** The characters of s before the first NUL: what a loop that stops at the NUL visits. */
  function CString(s: string): (r: string)
    ensures r <= s
    ensures forall k :: 0 <= k < |r| ==> r[k] != '\0'
    ensures |r| < |s| ==> s[|r|] == '\0'
  {
    if s == [] || s[0] == '\0' then [] else [s[0]] + CString(s[1..])
  }

  /** A NUL-free prefix followed by a NUL is exactly the C string. */
  lemma {:induction false} CStringOf(s: string, t: string)
    requires forall k :: 0 <= k < |s| ==> s[k] != '\0'
    requires t != [] && t[0] == '\0'
    ensures CString(s + t) == s
    decreases |s|
  {
    if s != [] {
      assert (s + t)[1..] == s[1..] + t;
      CStringOf(s[1..], t);
    } else {
      assert (s + t)[0] == '\0';
    }
  }

  /** A sequence with no NUL is its own C string. */
  lemma {:induction false} CStringWhole(s: string)
    requires forall k :: 0 <= k < |s| ==> s[k] != '\0'
    ensures CString(s) == s
    decreases |s|
  {
    if s != [] {
      CStringWhole(s[1..]);
    }
  }

  /** What UART_puts transmits for s: each LF preceded by a CR. */
  function Crlf(s: string): (t: string)
    ensures |t| >= |s|
  {
    if s == [] then []
    else
      var c := s[|s| - 1];
      Crlf(s[..|s| - 1]) + (if c == '\n' then "\r\n" else [c])
  }

  /** Removes the CR in front of every LF that has one. */
  function Strip(t: string): (s: string)
    decreases |t|
  {
    if t == [] then []
    else if |t| >= 2 && t[|t| - 1] == '\n' && t[|t| - 2] == '\r' then Strip(t[..|t| - 2]) + "\n"
    else Strip(t[..|t| - 1]) + [t[|t| - 1]]
  }

  /** The translation adds only the CRs: removing them gives s back. */
  lemma {:induction false} StripCrlf(s: string)
    ensures Strip(Crlf(s)) == s
    decreases |s|
  {
    if s != [] {
      var pre, c := s[..|s| - 1], s[|s| - 1];
      StripCrlf(pre);
      assert s == pre + [c];
      if c == '\n' {
        assert Crlf(s) == Crlf(pre) + "\r\n";
        StripLf(Crlf(pre));
      } else {
        assert Crlf(s) == Crlf(pre) + [c];
        StripOther(Crlf(pre), c);
      }
    }
  }

  /** A CR LF at the end is stripped to an LF. */
  lemma StripLf(u: string)
    ensures Strip(u + "\r\n") == Strip(u) + "\n"
  {
    assert (u + "\r\n")[..|u|] == u;
  }

  /** Any other last character is kept. */
  lemma StripOther(u: string, c: char)
    requires c != '\n'
    ensures Strip(u + [c]) == Strip(u) + [c]
  {
    assert (u + [c])[..|u|] == u;
  }

  /** The output has one character more than the input for each LF. */
  lemma {:induction false} CrlfLength(s: string)
    ensures |Crlf(s)| == |s| + multiset(s)['\n']
    decreases |s|
  {
    if s != [] {
      var pre := s[..|s| - 1];
      CrlfLength(pre);
      assert s == pre + [s[|s| - 1]];
    }
  }

  /** Every LF sent is preceded by a CR. */
  lemma {:induction false} CrlfCrBeforeLf(s: string)
    ensures forall k :: 0 <= k < |Crlf(s)| && Crlf(s)[k] == '\n' ==> k > 0 && Crlf(s)[k - 1] == '\r'
    decreases |s|
  {
    if s != [] {
      var pre := s[..|s| - 1];
      CrlfCrBeforeLf(pre);
      var t := Crlf(s);
      forall k | 0 <= k < |t| && t[k] == '\n'
        ensures k > 0 && t[k - 1] == '\r'
      {
        if k >= |Crlf(pre)| {
          assert s[|s| - 1] == '\n';
        } else {
          assert t[k] == Crlf(pre)[k];
        }
      }
    }
  }

  /** Without an LF nothing is translated. */
  lemma {:induction false} CrlfNoLf(s: string)
    requires forall k :: 0 <= k < |s| ==> s[k] != '\n'
    ensures Crlf(s) == s
    decreases |s|
  {
    if s != [] {
      CrlfNoLf(s[..|s| - 1]);
    }
  }

  /** The translation works character by character, so it distributes over concatenation. */
  lemma {:induction false} CrlfConcat(a: string, b: string)
    ensures Crlf(a + b) == Crlf(a) + Crlf(b)
    decreases |b|
  {
    if b != [] {
      var pre := b[..|b| - 1];
      assert (a + b)[..|a + b| - 1] == a + pre;
      CrlfConcat(a, pre);
    } else {
      assert a + b == a;
    }
  }

  /** The line terminator that UART_gets sends with UART_puts("\r\n"). */
  lemma CrlfOfCrLf()
    ensures Crlf("\r\n") == "\r\r\n"
  {
    assert "\r\n"[..1] == "\r";
    assert Crlf("\r") == "\r";
  }
}

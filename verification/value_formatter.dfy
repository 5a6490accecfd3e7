/** `compute_value`: a dictionary value as C literal text plus a comment. */
module ValueFormatter {
  import opened Wrappers
  import opened Strings
  import opened Types

  datatype Literal = Literal(text: string, comment: string)

  /** Every character as `\x` and its code in lower-case hexadecimal, padded to
      two digits (`f"\\x{ord(char):02x}"`). */
  function DomainEscape(s: string): string {
    if s == [] then "" else "\\x" + Hex2(s[0] as int, false) + DomainEscape(s[1..])
  }

  predicate StartsWith(s: string, prefix: string) {
    |prefix| <= |s| && s[..|prefix|] == prefix
  }

  function ComputeValue(value: ODValue, ctype: string): (r: Result<Literal, Error>)
    ensures var integral := ctype != "visible_string" && ctype != "domain" && !StartsWith(ctype, "real");
            r.Failure? <==> (ctype == "domain" && !value.StrValue?) || (integral && !value.IntValue?)
    ensures r.Failure? ==> r.error == if ctype == "domain" then NotText else NotIntegral
    ensures var integral := ctype != "visible_string" && ctype != "domain" && !StartsWith(ctype, "real");
            r.Success? ==> (r.value.comment != "" <==> integral)
  {
    if ctype == "visible_string" then
      Success(Literal("\"" + ValueText(value) + "\"", ""))
    else if ctype == "domain" then
      if value.StrValue? then Success(Literal("\"" + DomainEscape(value.s) + "\"", ""))
      else Failure(NotText)
    else if StartsWith(ctype, "real") then
      Success(Literal(ValueText(value), ""))
    else
      match value
      case IntValue(v) =>
        var comment := "\t/* " + IntToDecimal(v) + " */";
        if v < 0 then Success(Literal("-0x" + UpperHex(-v), comment))
        else Success(Literal("0x" + UpperHex(v), comment))
      case _ => Failure(NotIntegral)
  }

  /** Reads a C hexadecimal integer literal, optionally negated. */
  function ParseHexLiteral(t: string): int {
    if StartsWith(t, "-0x") then -(DigitsValue(t[3..], 16) as int)
    else if StartsWith(t, "0x") then DigitsValue(t[2..], 16)
    else 0
  }

  lemma ParseHexOf(sign: string, h: string)
    requires sign in {"", "-"}
    ensures ParseHexLiteral(sign + "0x" + h) == if sign == "" then DigitsValue(h, 16) as int else -(DigitsValue(h, 16) as int)
  {
    var t := sign + "0x" + h;
    if sign == "" {
      assert t == "0x" + h;
      assert t[0] == '0';
      assert !StartsWith(t, "-0x");
      assert t[..2] == "0x" && t[2..] == h;
    } else {
      assert t == "-0x" + h;
      assert t[..3] == "-0x" && t[3..] == h;
    }
  }

  /** Under an integer type tag an integer renders as a hexadecimal literal of the
      same value (the sign outside the hexadecimal magnitude) with its decimal
      value in the comment. */
  lemma IntegerLiteral(v: int, ctype: string)
    requires ctype != "visible_string" && ctype != "domain" && !StartsWith(ctype, "real")
    ensures ComputeValue(IntValue(v), ctype).Success?
    ensures var lit := ComputeValue(IntValue(v), ctype).value;
            && ParseHexLiteral(lit.text) == v
            && (lit.text[0] == '-' <==> v < 0)
            && lit.comment == "\t/* " + IntToDecimal(v) + " */"
            && DecimalToInt(IntToDecimal(v)) == v
    ensures var lit := ComputeValue(IntValue(v), ctype).value;
            var prefix := if v < 0 then "-0x" else "0x";
            && StartsWith(lit.text, prefix)
            && var digits := lit.text[|prefix|..];
            && digits != [] && All(IsUpperHexDigit, digits) && (|digits| > 1 ==> digits[0] != '0')
            && DigitsValue(digits, 16) == if v < 0 then -v else v
  {
    var lit := ComputeValue(IntValue(v), ctype).value;
    DecimalRoundTrip(v);
    var sign := if v < 0 then "-" else "";
    var magnitude := if v < 0 then -v else v;
    DigitsRoundTrip(magnitude, 16, true);
    DigitsCase(magnitude, 16, true);
    ParseHexOf(sign, UpperHex(magnitude));
    assert lit.text == sign + "0x" + UpperHex(magnitude);
    assert lit.text == (if v < 0 then "-0x" else "0x") + UpperHex(magnitude);
  }

  /** Under an integer type tag a string or a float value fails. */
  lemma NonIntegerFails(value: ODValue, ctype: string)
    requires ctype != "visible_string" && ctype != "domain" && !StartsWith(ctype, "real")
    requires !value.IntValue?
    ensures ComputeValue(value, ctype) == Failure(NotIntegral)
  {
  }

  /** Reads back a domain escape produced for byte-sized characters. */
  function Unescape(t: string): string
    decreases |t|
  {
    if |t| < 4 then "" else [(DigitValue(t[2]) % 16 * 16 + DigitValue(t[3]) % 16) as char] + Unescape(t[4..])
  }

  predicate IsByteString(s: string) {
    forall i :: 0 <= i < |s| ==> s[i] as int < 256
  }

  lemma ByteHex(n: nat, upper: bool)
    requires n < 256
    ensures |Hex2(n, upper)| == 2
    ensures DigitValue(Hex2(n, upper)[0]) < 16 && DigitValue(Hex2(n, upper)[1]) < 16
    ensures DigitValue(Hex2(n, upper)[0]) * 16 + DigitValue(Hex2(n, upper)[1]) == n
  {
    var h := Hex2(n, upper);
    if n >= 16 {
      DivisionStep(n, 16);
      assert NatToDigits(n, 16, upper) == NatToDigits(n / 16, 16, upper) + [DigitChar(n % 16, upper)];
      DigitCharValue(n / 16, upper);
      DigitCharValue(n % 16, upper);
    } else {
      DigitCharValue(n, upper);
      DigitCharValue(0, upper);
      assert h == "0" + [DigitChar(n, upper)];
    }
    assert h[..1][..0] == [];
    assert h[..1] == [h[0]];
  }

  lemma UnescapeStep(c: char, rest: string)
    requires c as int < 256
    ensures |"\\x" + Hex2(c as int, false) + rest| == 4 + |rest|
    ensures Unescape("\\x" + Hex2(c as int, false) + rest) == [c] + Unescape(rest)
  {
    var h := Hex2(c as int, false);
    ByteHex(c as int, false);
    var e := "\\x" + h + rest;
    assert e[2] == h[0] && e[3] == h[1];
    assert e[4..] == rest;
    var code := DigitValue(e[2]) % 16 * 16 + DigitValue(e[3]) % 16;
    assert code == c as int;
  }

  /** For characters below 256 each escape is four characters and the escapes
      read back to the original text. */
  lemma {:induction false} DomainRoundTrip(s: string)
    requires IsByteString(s)
    ensures |DomainEscape(s)| == 4 * |s|
    ensures Unescape(DomainEscape(s)) == s
    decreases |s|
  {
    if s != [] {
      DomainRoundTrip(s[1..]);
      UnescapeStep(s[0], DomainEscape(s[1..]));
      assert s == [s[0]] + s[1..];
    }
  }

  /** `e` is the escape of `c`: a backslash, `x` and two lower-case hexadecimal
      digits whose value is the character's code. */
  predicate IsEscapeOf(e: string, c: char) {
    && |e| == 4 && e[0] == '\\' && e[1] == 'x'
    && IsLowerHexDigit(e[2]) && IsLowerHexDigit(e[3])
    && DigitValue(e[2]) * 16 + DigitValue(e[3]) == c as int
  }

  /** Prepending one escape to a run of escapes shifts the run by four. */
  lemma ConsEscapes(c: char, rest: string, head: string, tail: string)
    requires IsEscapeOf(head, c) && |tail| == 4 * |rest|
    requires forall i :: 0 <= i < |rest| ==> IsEscapeOf(tail[4 * i..4 * i + 4], rest[i])
    ensures forall i :: 0 <= i < |rest| + 1 ==> IsEscapeOf((head + tail)[4 * i..4 * i + 4], ([c] + rest)[i])
  {
    forall i | 0 <= i < |rest| + 1
      ensures IsEscapeOf((head + tail)[4 * i..4 * i + 4], ([c] + rest)[i])
    {
      if i == 0 {
        assert (head + tail)[0..4] == head;
      } else {
        assert (head + tail)[4 * i..4 * i + 4] == tail[4 * (i - 1)..4 * (i - 1) + 4];
        assert ([c] + rest)[i] == rest[i - 1];
      }
    }
  }

  /** For characters below 256 the `i`-th four characters of the escaped text
      are the escape of the `i`-th character. */
  lemma {:induction false} DomainEscapes(s: string)
    requires IsByteString(s)
    ensures |DomainEscape(s)| == 4 * |s|
    ensures forall i :: 0 <= i < |s| ==> IsEscapeOf(DomainEscape(s)[4 * i..4 * i + 4], s[i])
    decreases |s|
  {
    if s != [] {
      DomainEscapes(s[1..]);
      ByteHex(s[0] as int, false);
      var head := "\\x" + Hex2(s[0] as int, false);
      assert IsEscapeOf(head, s[0]);
      ConsEscapes(s[0], s[1..], head, DomainEscape(s[1..]));
      assert [s[0]] + s[1..] == s;
    }
  }

  /** A domain value renders as its escapes in quotes with no comment; a
      visible string is quoted as it is. */
  lemma QuotedKinds(value: ODValue)
    ensures value.StrValue? ==>
              var lit := ComputeValue(value, "domain").value;
              && lit.comment == "" && |lit.text| >= 2
              && lit.text[0] == '"' && lit.text[|lit.text| - 1] == '"'
              && lit.text[1..|lit.text| - 1] == DomainEscape(value.s)
    ensures !value.StrValue? ==> ComputeValue(value, "domain") == Failure(NotText)
    ensures var lit := ComputeValue(value, "visible_string").value;
            lit.comment == "" && lit.text[0] == '"' && lit.text[|lit.text| - 1] == '"' &&
            lit.text[1..|lit.text| - 1] == ValueText(value)
  {
  }
}

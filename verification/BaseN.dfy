/** Encoding byte strings as numbers in an arbitrary alphabet, least significant digit
    first. */
module BaseN {
  import opened Common

  type Byte = x: int | 0 <= x < 256
  type Bytes = seq<Byte>

  /** Every character is a single byte. */
  predicate SingleByte(alphabet: string) {
    forall i | 0 <= i < |alphabet| :: alphabet[i] as int < 128
  }

  /** At least two characters, each a single byte. */
  predicate Encodable(alphabet: string) {
    |alphabet| >= 2 && SingleByte(alphabet)
  }

  /** And all of them different. */
  predicate Usable(alphabet: string) {
    Encodable(alphabet) && forall i, j | 0 <= i < j < |alphabet| :: alphabet[i] != alphabet[j]
  }

  // -----------------------------------------------------------------------
  // Numbers and bytes
  // -----------------------------------------------------------------------

  /** The number that bytes denote, most significant first (big.Int.SetBytes). */
  function Number(data: Bytes): nat {
    if data == [] then 0 else Number(data[..|data| - 1]) * 256 + data[|data| - 1]
  }

  /** The shortest bytes that denote a number (big.Int.Bytes). */
  function MinimalBytes(v: nat): Bytes {
    if v == 0 then [] else MinimalBytes(v / 256) + [v % 256]
  }

  function StripZeros(data: Bytes): Bytes {
    if data != [] && data[0] == 0 then StripZeros(data[1..]) else data
  }

  lemma {:induction false} NumberOfStripped(data: Bytes)
    ensures Number(StripZeros(data)) == Number(data)
  {
    if data != [] && data[0] == 0 {
      LeadingZero(data);
      NumberOfStripped(data[1..]);
    }
  }

  lemma {:induction false} LeadingZero(data: Bytes)
    requires data != [] && data[0] == 0
    ensures Number(data[1..]) == Number(data)
  {
    if |data| > 1 {
      assert data[1..][..|data| - 2] == data[..|data| - 1][1..];
      LeadingZero(data[..|data| - 1]);
    }
  }

  lemma {:induction false} NumberIsPositive(data: Bytes)
    requires data != [] && data[0] != 0
    ensures Number(data) > 0
  {
    if |data| > 1 {
      NumberIsPositive(data[..|data| - 1]);
    }
  }

  lemma {:induction false} MinimalOfNumber(data: Bytes)
    requires data == [] || data[0] != 0
    ensures MinimalBytes(Number(data)) == data
  {
    if data != [] {
      NumberIsPositive(data);
      MinimalOfNumber(data[..|data| - 1]);
    }
  }

  /** The bytes of a number are the original ones without leading zeros. */
  lemma BytesOfNumber(data: Bytes)
    ensures MinimalBytes(Number(data)) == StripZeros(data)
  {
    StrippedHasNoZero(data);
    MinimalOfNumber(StripZeros(data));
    NumberOfStripped(data);
  }

  lemma {:induction false} StrippedHasNoZero(data: Bytes)
    ensures StripZeros(data) == [] || StripZeros(data)[0] != 0
  {
    if data != [] && data[0] == 0 {
      StrippedHasNoZero(data[1..]);
    }
  }

  // -----------------------------------------------------------------------
  // Digits
  // -----------------------------------------------------------------------

  /** The digits of a number, least significant first. */
  function Digits(alphabet: string, v: nat): string
    requires |alphabet| >= 2
    decreases v
  {
    if v == 0 then "" else [alphabet[v % |alphabet|]] + Digits(alphabet, v / |alphabet|)
  }

  /** A number divided k times. */
  function Quotient(v: nat, n: nat, k: nat): nat
    requires n > 0
    decreases k
  {
    if k == 0 then v else Quotient(v / n, n, k - 1)
  }

  /** The k-th character is the remainder of the k-th quotient, and the last is not zero. */
  lemma {:induction false} DigitAt(alphabet: string, v: nat, k: nat)
    requires |alphabet| >= 2 && k < |Digits(alphabet, v)|
    ensures Digits(alphabet, v)[k] == alphabet[Quotient(v, |alphabet|, k) % |alphabet|]
    ensures k == |Digits(alphabet, v)| - 1 ==> 0 < Quotient(v, |alphabet|, k) < |alphabet|
    decreases k
  {
    var n := |alphabet|;
    var q, r := Divide(v, n);
    if k > 0 {
      DigitAt(alphabet, q, k - 1);
    } else if q == 0 {
      assert n * q == 0;
    } else {
      assert Digits(alphabet, q) != "";
    }
  }

  predicate InAlphabet(alphabet: string, text: string) {
    forall i | 0 <= i < |text| :: text[i] in alphabet
  }

  /** The last position of a character in the alphabet. */
  function DigitValue(alphabet: string, c: char): (d: nat)
    requires c in alphabet
    ensures d < |alphabet| && alphabet[d] == c && forall j | d < j < |alphabet| :: alphabet[j] != c
  {
    var last := |alphabet| - 1;
    if alphabet[last] == c then last else DigitValue(alphabet[..last], c)
  }

  lemma DigitOf(alphabet: string, d: nat)
    requires Usable(alphabet) && d < |alphabet|
    ensures DigitValue(alphabet, alphabet[d]) == d
  {
  }

  /** The number that digits denote. */
  function Eval(alphabet: string, text: string): nat
    requires InAlphabet(alphabet, text)
  {
    if text == "" then 0 else DigitValue(alphabet, text[0]) + |alphabet| * Eval(alphabet, text[1..])
  }

  lemma {:induction false} DigitsAreInAlphabet(alphabet: string, v: nat)
    requires |alphabet| >= 2
    ensures InAlphabet(alphabet, Digits(alphabet, v))
    decreases v
  {
    if v != 0 {
      DigitsAreInAlphabet(alphabet, v / |alphabet|);
    }
  }

  lemma {:induction false} EvalOfDigits(alphabet: string, v: nat)
    requires Usable(alphabet)
    ensures InAlphabet(alphabet, Digits(alphabet, v)) && Eval(alphabet, Digits(alphabet, v)) == v
    decreases v
  {
    DigitsAreInAlphabet(alphabet, v);
    if v != 0 {
      var q, r := Divide(v, |alphabet|);
      EvalOfDigits(alphabet, q);
      DigitOf(alphabet, r);
      EvalStep(alphabet, alphabet[r], Digits(alphabet, q));
    }
  }

  lemma EvalStep(alphabet: string, c: char, rest: string)
    requires c in alphabet && InAlphabet(alphabet, rest)
    ensures InAlphabet(alphabet, [c] + rest)
    ensures Eval(alphabet, [c] + rest) == DigitValue(alphabet, c) + |alphabet| * Eval(alphabet, rest)
  {
    assert ([c] + rest)[1..] == rest;
  }

  /** The quotient and the remainder of a division. */
  lemma Divide(v: nat, n: nat) returns (q: nat, r: nat)
    requires n >= 2 && v > 0
    ensures q == v / n && r == v % n
    ensures v == r + n * q && r < n && q < v
  {
    q, r := v / n, v % n;
  }

  /** Texts without a trailing zero digit are exactly those that encoding produces. */
  lemma {:induction false} DigitsOfEval(alphabet: string, text: string)
    requires Usable(alphabet) && InAlphabet(alphabet, text)
    ensures Digits(alphabet, Eval(alphabet, text)) == text <==> text == "" || text[|text| - 1] != alphabet[0]
  {
    if text != "" {
      var d, rest := DigitValue(alphabet, text[0]), text[1..];
      var v := Eval(alphabet, rest);
      assert text == [text[0]] + rest;
      DigitsOfEval(alphabet, rest);
      assert Eval(alphabet, text) == d + |alphabet| * v by {
        EvalStep(alphabet, text[0], rest);
      }
      DigitsStep(alphabet, d, v);
      if rest != "" {
        assert text[|text| - 1] == rest[|rest| - 1];
      } else if d == 0 {
        assert Eval(alphabet, text) == 0;
      } else {
        DigitOf(alphabet, 0);
      }
    }
  }

  /** One more digit in front, unless the whole is zero. */
  lemma DigitsStep(alphabet: string, d: nat, v: nat)
    requires |alphabet| >= 2 && d < |alphabet|
    ensures Digits(alphabet, d + |alphabet| * v) == if d == 0 && v == 0 then "" else [alphabet[d]] + Digits(alphabet, v)
  {
    DivModOf(|alphabet|, d, v);
  }

  lemma DivModOf(n: nat, d: nat, v: nat)
    requires d < n
    ensures (d + n * v) % n == d && (d + n * v) / n == v
    ensures d + n * v == 0 <==> d == 0 && v == 0
  {
    var x := d + n * v;
    assert x == n * (x / n) + x % n;
    UniqueDivision(n, v, d, x / n, x % n);
  }

  lemma UniqueDivision(n: nat, q: nat, r: nat, p: nat, s: nat)
    requires r < n && s < n && n * q + r == n * p + s
    ensures q == p && r == s
  {
    assert n * (p + 1) == n * p + n && n * (q + 1) == n * q + n;
    MulLess(n, q, p + 1);
    MulLess(n, p, q + 1);
  }

  // -----------------------------------------------------------------------
  // The encoder and the decoder
  // -----------------------------------------------------------------------

  method Encode(alphabet: string, data: Bytes) returns (result: string)
    requires Encodable(alphabet)
    ensures result == Digits(alphabet, Number(data))
  {
    var value: nat := Number(data);
    var base: nat := |alphabet|;
    result := "";
    while value != 0
      invariant result + Digits(alphabet, value) == Digits(alphabet, Number(data))
      decreases value
    {
      ghost var q, r := Divide(value, base);
      assert result + ([alphabet[r]] + Digits(alphabet, q)) == (result + [alphabet[r]]) + Digits(alphabet, q);
      var remainder := value % base;
      value := value / base;
      result := result + [alphabet[remainder]];
    }
  }

  /** The decoder's table of digit values. */
  method NewTable(alphabet: string) returns (table: map<char, nat>)
    requires SingleByte(alphabet)
    ensures forall c :: c in table <==> c in alphabet
    ensures forall c | c in table :: table[c] == DigitValue(alphabet, c)
  {
    table := map[];
    for i := 0 to |alphabet|
      invariant forall c :: c in table <==> c in alphabet[..i]
      invariant forall c | c in table :: table[c] == DigitValue(alphabet[..i], c)
    {
      table := table[alphabet[i] := i];
      assert alphabet[..i + 1][..i] == alphabet[..i];
    }
    assert alphabet[..|alphabet|] == alphabet;
  }

  function Pow(n: nat, k: nat): nat {
    if k == 0 then 1 else n * Pow(n, k - 1)
  }

  /** The last digit has the greatest weight. */
  lemma {:induction false} EvalAppend(alphabet: string, text: string, c: char)
    requires InAlphabet(alphabet, text) && c in alphabet
    ensures InAlphabet(alphabet, text + [c])
    ensures Eval(alphabet, text + [c]) == Eval(alphabet, text) + DigitValue(alphabet, c) * Pow(|alphabet|, |text|)
  {
    if text == "" {
      EvalStep(alphabet, c, "");
      assert text + [c] == [c] + "";
    } else {
      var n, d, w, e := |alphabet|, DigitValue(alphabet, c), Pow(|alphabet|, |text| - 1), Eval(alphabet, text[1..]);
      EvalAppend(alphabet, text[1..], c);
      assert (text + [c])[1..] == text[1..] + [c];
      Distribute(n, e, d, w);
    }
  }

  lemma Distribute(n: nat, e: nat, d: nat, w: nat)
    ensures n * (e + d * w) == n * e + d * (n * w)
  {
  }

  method Decode(alphabet: string, data: string) returns (result: Option<Bytes>)
    requires SingleByte(alphabet)
    ensures result.Some? <==> InAlphabet(alphabet, data)
    ensures InAlphabet(alphabet, data) ==> result == Some(MinimalBytes(Eval(alphabet, data)))
  {
    var table := NewTable(alphabet);
    var n := |alphabet|;
    var value := 0;
    for i := 0 to |data|
      invariant InAlphabet(alphabet, data[..i]) && value == Eval(alphabet, data[..i])
    {
      if data[i] !in table {
        assert !InAlphabet(alphabet, data);
        return None;
      }
      var factor := Pow(n, i);
      var next := value + table[data[i]] * factor;
      assert InAlphabet(alphabet, data[..i + 1]) && next == Eval(alphabet, data[..i + 1]) by {
        assert data[..i + 1] == data[..i] + [data[i]];
        EvalAppend(alphabet, data[..i], data[i]);
      }
      value := next;
    }
    assert data[..|data|] == data;
    return Some(MinimalBytes(value));
  }

  /** Decoding the encoding of the bytes returns them without their leading zeros. */
  predicate RoundTrips(alphabet: string, data: Bytes)
    requires |alphabet| >= 2
  {
    var text := Digits(alphabet, Number(data));
    InAlphabet(alphabet, text) && MinimalBytes(Eval(alphabet, text)) == StripZeros(data)
  }

  /** All byte strings survive encoding and decoding, up to leading zeros, exactly when
      no character of the alphabet is repeated. */
  lemma EncodingRoundTrips(alphabet: string)
    requires Encodable(alphabet)
    ensures (forall data: Bytes :: RoundTrips(alphabet, data)) <==> Usable(alphabet)
  {
    if Usable(alphabet) {
      forall data: Bytes ensures RoundTrips(alphabet, data) {
        EvalOfDigits(alphabet, Number(data));
        BytesOfNumber(data);
      }
    } else {
      var i, j :| 0 <= i < j < |alphabet| && alphabet[i] == alphabet[j];
      RepeatedCharacterLoses(alphabet, i, j);
    }
  }

  /** A number with a digit whose character occurs again later decodes to a greater one. */
  lemma {:induction false} RepeatedCharacterLoses(alphabet: string, i: nat, j: nat)
    requires Encodable(alphabet) && i < j < |alphabet| && alphabet[i] == alphabet[j]
    ensures !RoundTrips(alphabet, MinimalBytes(i + |alphabet|))
  {
    var v := i + |alphabet|;
    TwoDigits(alphabet, i);
    TwoDigitsValue(alphabet, i, j);
    OtherNumber(alphabet, v, Eval(alphabet, [alphabet[i]] + [alphabet[1]]));
  }

  /** Digits that denote another number than theirs decode to other bytes. */
  lemma {:induction false} OtherNumber(alphabet: string, v: nat, w: nat)
    requires |alphabet| >= 2 && InAlphabet(alphabet, Digits(alphabet, v)) && Eval(alphabet, Digits(alphabet, v)) == w != v
    ensures !RoundTrips(alphabet, MinimalBytes(v))
  {
    var data := MinimalBytes(v);
    assert Number(data) == v && Number(MinimalBytes(w)) == w by {
      NumberOfMinimal(v);
      NumberOfMinimal(w);
    }
    assert StripZeros(data) == data by {
      BytesOfNumber(data);
    }
  }

  lemma {:induction false} TwoDigits(alphabet: string, i: nat)
    requires Encodable(alphabet) && i < |alphabet|
    ensures Digits(alphabet, i + |alphabet|) == [alphabet[i]] + [alphabet[1]]
  {
    DigitsStep(alphabet, 1, 0);
    DigitsStep(alphabet, i, 1);
    assert [alphabet[1]] + Digits(alphabet, 0) == [alphabet[1]];
  }

  lemma {:induction false} TwoDigitsValue(alphabet: string, i: nat, j: nat)
    requires Encodable(alphabet) && i < j < |alphabet| && alphabet[i] == alphabet[j]
    ensures InAlphabet(alphabet, [alphabet[i]] + [alphabet[1]])
    ensures Eval(alphabet, [alphabet[i]] + [alphabet[1]]) > i + |alphabet|
  {
    var second := [alphabet[1]];
    assert second + "" == second;
    EvalStep(alphabet, alphabet[1], "");
    EvalStep(alphabet, alphabet[i], second);
    MulMonotone(|alphabet|, 1, Eval(alphabet, second));
  }

  lemma {:induction false} NumberOfMinimal(v: nat)
    ensures Number(MinimalBytes(v)) == v
  {
    if v != 0 {
      NumberOfMinimal(v / 256);
      assert MinimalBytes(v)[..|MinimalBytes(v)| - 1] == MinimalBytes(v / 256);
    }
  }

  /** Two byte strings are encoded alike exactly when they denote the same number. */
  lemma SameEncodingSameNumber(alphabet: string, a: Bytes, b: Bytes)
    requires Usable(alphabet)
    ensures Digits(alphabet, Number(a)) == Digits(alphabet, Number(b)) <==> Number(a) == Number(b)
    ensures Number(a) == Number(b) <==> StripZeros(a) == StripZeros(b)
  {
    EvalOfDigits(alphabet, Number(a));
    EvalOfDigits(alphabet, Number(b));
    BytesOfNumber(a);
    BytesOfNumber(b);
    NumberOfStripped(a);
    NumberOfStripped(b);
  }
}

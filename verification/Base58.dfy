/** Base58 text for byte strings, in both directions, and addresses built on it (gamecoin/utils.py). */
module Base58 {
  import opened Prelude

  type byte = b: int | 0 <= b < 256

  const DIGITS := "123456789"
  const UPPER := "ABCDEFGHJKLMNPQRSTUVWXYZ"
  const LOWER := "abcdefghijkmnopqrstuvwxyz"
  const ALPHABET := DIGITS + UPPER + LOWER

  function CharOf(i: int): char
    requires 0 <= i < 58
  {
    ALPHABET[i]
  }

  /** The index table built from the alphabet; 58 for a character that is not in it. */
  function IndexOf(c: char, from: nat := 0): (k: nat)
    requires from <= 58
    ensures from <= k <= 58
    ensures k < 58 ==> CharOf(k) == c
    ensures forall i :: from <= i < k ==> CharOf(i) != c
    decreases 58 - from
  {
    if from == 58 || CharOf(from) == c then from else IndexOf(c, from + 1)
  }

  lemma {:induction false} AlphabetCodes(i: nat)
    requires i < 58
    ensures ALPHABET[i] as int ==
              if i < 9 then 49 + i
              else if i < 17 then 56 + i else if i < 22 then 57 + i else if i < 33 then 58 + i
              else if i < 44 then 64 + i else 65 + i
  {
    if i < 9 {
      assert ALPHABET[i] == DIGITS[i];
    } else if i < 33 {
      assert ALPHABET[i] == UPPER[i - 9];
    } else {
      assert ALPHABET[i] == LOWER[i - 33];
    }
  }

  lemma {:induction false} IndexOfSymbol(i: nat)
    requires i < 58
    ensures IndexOf(CharOf(i)) == i
  {
    AlphabetCodes(i);
    AlphabetCodes(IndexOf(CharOf(i)));
  }

  // Numbers in an arbitrary base, most significant digit first

  ghost predicate AreDigits(base: nat, s: seq<int>) {
    forall i :: 0 <= i < |s| ==> 0 <= s[i] < base
  }

  function Value(base: nat, s: seq<int>): int {
    if s == [] then 0 else Push(base, Value(base, s[..|s| - 1]), s[|s| - 1])
  }

  function Push(base: nat, n: int, digit: int): int {
    n * base + digit
  }

  /** The digits of `n` without leading zeros. */
  function Digits(base: nat, n: nat): (s: seq<int>)
    requires base >= 2
    ensures AreDigits(base, s)
    ensures s != [] ==> s[0] > 0
    ensures s == [] <==> n == 0
    decreases n
  {
    if n == 0 then [] else
      Digits(base, n / base) + [n % base]
  }

  function LeadingZeros(s: seq<int>): (k: nat)
    ensures k <= |s|
    ensures forall i :: 0 <= i < k ==> s[i] == 0
    ensures k < |s| ==> s[k] != 0
  {
    if s != [] && s[0] == 0 then 1 + LeadingZeros(s[1..]) else 0
  }

  function Zeros(n: nat): (s: seq<int>)
    ensures |s| == n && forall i :: 0 <= i < n ==> s[i] == 0
  {
    seq(n, _ => 0)
  }

  lemma {:induction false} PushPop(base: nat, n: nat)
    requires base >= 2
    ensures Push(base, n / base, n % base) == n
  {
  }

  lemma {:induction false} PopPush(base: nat, n: nat, digit: nat)
    requires digit < base
    ensures Push(base, n, digit) >= 0
    ensures Push(base, n, digit) / base == n && Push(base, n, digit) % base == digit
    ensures Push(base, n, digit) == 0 <==> n == 0 && digit == 0
  {
    MulMonotone(0, n, base);
    assert (n + 1) * base == n * base + base;
    DivisionUnique(Push(base, n, digit), base, n);
    if n > 0 {
      MulMonotone(1, n, base);
    }
  }

  lemma {:induction false} ValueNonNegative(base: nat, s: seq<int>)
    requires AreDigits(base, s)
    ensures Value(base, s) >= 0
  {
    if s != [] {
      ValueNonNegative(base, s[..|s| - 1]);
      PopPush(base, Value(base, s[..|s| - 1]), s[|s| - 1]);
    }
  }

  lemma {:induction false} ValueOfDigits(base: nat, n: nat)
    requires base >= 2
    ensures Value(base, Digits(base, n)) == n
    decreases n
  {
    hide Push;
    if n > 0 {
      PushPop(base, n);
      ValueOfDigits(base, n / base);
      assert Digits(base, n)[..|Digits(base, n)| - 1] == Digits(base, n / base);
    }
  }

  lemma {:induction false} DigitsOfValue(base: nat, s: seq<int>)
    requires base >= 2 && AreDigits(base, s)
    ensures Value(base, s) >= 0
    ensures Digits(base, Value(base, s)) == s[LeadingZeros(s)..]
  {
    hide Push;
    if s != [] {
      var front, d := s[..|s| - 1], s[|s| - 1];
      DigitsOfValue(base, front);
      PopPush(base, Value(base, front), d);
      assert s == front + [d];
      ZerosPrefix(front, d);
      var k := LeadingZeros(front);
      if k < |front| || d != 0 {
        assert s[k..] == front[k..] + [d];
      }
    }
  }

  lemma {:induction false} ZerosPrefix(s: seq<int>, d: int)
    ensures LeadingZeros(s + [d]) == if LeadingZeros(s) < |s| || d != 0 then LeadingZeros(s) else |s| + 1
  {
    if s != [] {
      assert (s + [d])[1..] == s[1..] + [d];
      ZerosPrefix(s[1..], d);
    }
  }

  lemma {:induction false} ZerosThenDigits(k: nat, s: seq<int>)
    requires s != [] ==> s[0] != 0
    ensures LeadingZeros(Zeros(k) + s) == k
  {
    var padded := Zeros(k) + s;
    if k > 0 {
      assert padded[1..] == Zeros(k - 1) + s;
      ZerosThenDigits(k - 1, s);
    }
  }

  lemma {:induction false} ValueOfPadded(base: nat, k: nat, s: seq<int>)
    ensures Value(base, Zeros(k) + s) == Value(base, s)
  {
    var padded := Zeros(k) + s;
    if s != [] {
      assert padded[..|padded| - 1] == Zeros(k) + s[..|s| - 1];
      ValueOfPadded(base, k, s[..|s| - 1]);
    } else if k > 0 {
      assert padded[..|padded| - 1] == Zeros(k - 1) + s;
      ValueOfPadded(base, k - 1, s);
    }
  }

  // b58encode and b58decode

  predicate IsBase58(text: string) {
    forall i :: 0 <= i < |text| ==> IndexOf(text[i]) < 58
  }

  function Symbols(digits: seq<int>): (text: string)
    requires AreDigits(58, digits)
    ensures |text| == |digits| && forall i :: 0 <= i < |text| ==> text[i] == CharOf(digits[i])
  {
    seq(|digits|, i requires 0 <= i < |digits| => CharOf(digits[i]))
  }

  function Indexes(text: string): (digits: seq<int>)
    requires IsBase58(text)
    ensures |digits| == |text| && AreDigits(58, digits)
    ensures forall i :: 0 <= i < |text| ==> CharOf(digits[i]) == text[i]
  {
    seq(|text|, i requires 0 <= i < |text| => IndexOf(text[i]))
  }

  /** The Base58 digits of a byte string: its leading zeros, then its value, or one more zero if that is 0. */
  function EncodedDigits(data: seq<byte>): (digits: seq<int>)
    ensures AreDigits(58, digits)
  {
    ValueNonNegative(256, data);
    var out := Digits(58, Value(256, data));
    Zeros(LeadingZeros(data)) + (if out == [] then [0] else out)
  }

  function DecodedBytes(digits: seq<int>): (data: seq<byte>)
    requires AreDigits(58, digits)
  {
    ValueNonNegative(58, digits);
    Zeros(LeadingZeros(digits)) + Digits(256, Value(58, digits))
  }

  function Encode(data: seq<byte>): string {
    Symbols(EncodedDigits(data))
  }

  function Decode(text: string): (r: Result<seq<byte>>)
    ensures r.Ok? <==> text != "" && IsBase58(text)
  {
    if text == "" then Err(EmptyText)
    else if !IsBase58(text) then Err(BadCharacter)
    else Ok(DecodedBytes(Indexes(text)))
  }

  function BitLength(n: nat): nat {
    if n == 0 then 0 else 1 + BitLength(n / 2)
  }

  lemma {:induction false} BitLengthOfNibble(n: nat)
    requires 0 < n < 16
    ensures 1 <= BitLength(n) <= 4
  {
    assert n / 2 / 2 / 2 / 2 == 0;
    assert BitLength(n) == 1 + BitLength(n / 2);
    assert BitLength(n / 2) <= 1 + BitLength(n / 2 / 2);
    assert BitLength(n / 2 / 2) <= 1 + BitLength(n / 2 / 2 / 2);
  }

  lemma {:induction false} BitLengthByNibble(n: nat)
    requires n >= 16
    ensures BitLength(n) == 4 + BitLength(n / 16)
  {
    assert n / 2 / 2 / 2 / 2 == n / 16;
    assert BitLength(n / 2) == 1 + BitLength(n / 2 / 2);
    assert BitLength(n / 2 / 2) == 1 + BitLength(n / 2 / 2 / 2);
  }

  /** `n.to_bytes((n.bit_length() + 7) // 8)` needs neither more nor fewer bytes than the digits of n. */
  lemma {:induction false} BytesNeeded(n: nat)
    ensures (BitLength(n) + 7) / 8 == |Digits(256, n)|
    decreases n
  {
    if n >= 256 {
      BitLengthByNibble(n);
      BitLengthByNibble(n / 16);
      BytesNeeded(n / 256);
    } else if n >= 16 {
      BitLengthByNibble(n);
      BitLengthOfNibble(n / 16);
      assert Digits(256, n / 256) == [];
    } else if n > 0 {
      BitLengthOfNibble(n);
      assert Digits(256, n / 256) == [];
    }
  }

  function Reversed<T>(s: seq<T>): (r: seq<T>)
    ensures |r| == |s| && forall i :: 0 <= i < |s| ==> r[i] == s[|s| - 1 - i]
  {
    seq(|s|, i requires 0 <= i < |s| => s[|s| - 1 - i])
  }

  method CountLeading<T(==)>(s: seq<T>, x: T) returns (pad: nat)
    ensures pad <= |s| && (forall i :: 0 <= i < pad ==> s[i] == x) && (pad < |s| ==> s[pad] != x)
  {
    pad := 0;
    while pad < |s| && s[pad] == x
      invariant pad <= |s| && forall i :: 0 <= i < pad ==> s[i] == x
    {
      pad := pad + 1;
    }
  }

  /** `out` holds the symbols of `low`, least significant first. */
  ghost predicate Backwards(out: string, low: seq<int>) {
    && |out| == |low| && AreDigits(58, low)
    && forall i :: 0 <= i < |low| ==> out[|low| - 1 - i] == CharOf(low[i])
  }

  lemma {:induction false} BackwardsNil()
    ensures Backwards("", [])
  {
  }

  lemma {:induction false} BackwardsStep(out: string, low: seq<int>, d: int)
    requires Backwards(out, low) && 0 <= d < 58
    ensures Backwards(out + [CharOf(d)], [d] + low)
  {
    hide CharOf;
  }

  lemma {:induction false} BackwardsReversed(out: string, low: seq<int>)
    requires Backwards(out, low)
    ensures Reversed(out) == Symbols(low)
  {
    hide CharOf;
  }

  lemma {:induction false} EncodeParts(data: seq<byte>, n: nat)
    requires n == Value(256, data)
    ensures Encode(data) == Symbols(Zeros(LeadingZeros(data))) + Symbols(if n == 0 then [0] else Digits(58, n))
  {
    hide CharOf, Value;
  }

  method B58Encode(data: seq<byte>) returns (text: string)
    ensures text == Encode(data)
  {
    hide Push, LeadingZeros, Value, CharOf, Backwards, Encode, Reversed, Symbols;
    ValueNonNegative(256, data);
    ghost var value: nat := Value(256, data);
    var n: nat := Value(256, data);
    var out := "";
    ghost var low: seq<int> := [];
    BackwardsNil();
    while n > 0
      invariant Digits(58, value) == Digits(58, n) + low && Backwards(out, low)
    {
      BackwardsStep(out, low, n % 58);
      out := out + [CharOf(n % 58)];
      low := [n % 58] + low;
      n := n / 58;
    }
    var pad := CountLeading(data, 0);
    LeadingZerosUnique(data, pad);
    EncodeParts(data, value);
    BackwardsReversed(out, low);
    text := seq(pad, _ => CharOf(0)) + (if out == "" then [CharOf(0)] else Reversed(out));
    PaddingSymbols(pad);
  }

  lemma {:induction false} PaddingSymbols(pad: nat)
    ensures seq(pad, _ => CharOf(0)) == Symbols(Zeros(pad))
    ensures Symbols([0]) == [CharOf(0)]
  {
    hide CharOf;
  }

  lemma {:induction false} LeadingZerosUnique(s: seq<int>, k: nat)
    requires k <= |s| && (forall i :: 0 <= i < k ==> s[i] == 0) && (k < |s| ==> s[k] != 0)
    ensures LeadingZeros(s) == k
  {
    if k > 0 {
      LeadingZerosUnique(s[1..], k - 1);
    }
  }

  lemma {:induction false} IndexesStep(text: string, i: nat)
    requires i < |text| && IsBase58(text[..i]) && IndexOf(text[i]) < 58
    ensures IsBase58(text[..i + 1])
    ensures Value(58, Indexes(text[..i + 1])) == Value(58, Indexes(text[..i])) * 58 + IndexOf(text[i])
  {
    assert text[..i + 1] == text[..i] + [text[i]];
    assert Indexes(text[..i + 1])[..i] == Indexes(text[..i]);
  }

  method B58Decode(text: string) returns (r: Result<seq<byte>>)
    ensures r == Decode(text)
  {
    if text == "" {
      return Err(EmptyText);
    }
    hide Push, Value, LeadingZeros, IsBase58, IndexOf, CharOf, DecodedBytes;
    var n: nat := 0;
    PrefixNil(text);
    for i := 0 to |text|
      invariant IsBase58(text[..i]) && n == Value(58, Indexes(text[..i]))
    {
      var index := IndexOf(text[i]);
      if index == 58 {
        NotBase58(text, i);
        return Err(BadCharacter);
      }
      IndexesStep(text, i);
      n := n * 58 + index;
    }
    assert text[..|text|] == text;
    var pad := CountLeading(text, CharOf(0));
    DecodeParts(text, pad);
    return Ok(Zeros(pad) + BytesOf(n, (BitLength(n) + 7) / 8));
  }

  lemma {:induction false} PrefixNil(text: string)
    ensures IsBase58(text[..0]) && Value(58, Indexes(text[..0])) == 0
  {
  }

  lemma {:induction false} NotBase58(text: string, i: nat)
    requires i < |text| && IndexOf(text[i]) == 58
    ensures !IsBase58(text)
  {
  }

  lemma {:induction false} DecodeParts(text: string, pad: nat)
    requires IsBase58(text) && pad <= |text|
    requires (forall i :: 0 <= i < pad ==> text[i] == CharOf(0)) && (pad < |text| ==> text[pad] != CharOf(0))
    ensures Value(58, Indexes(text)) >= 0
    ensures DecodedBytes(Indexes(text)) == Zeros(pad) + Digits(256, Value(58, Indexes(text)))
  {
    IndexesOfOnes(text);
    ValueNonNegative(58, Indexes(text));
    LeadingZerosUnique(Indexes(text), pad);
  }

  /** `n.to_bytes(length, 'big')` where `length` is just enough. */
  function BytesOf(n: nat, length: nat): seq<byte>
    requires length == (BitLength(n) + 7) / 8
    ensures BytesOf(n, length) == Digits(256, n) && |BytesOf(n, length)| == length
  {
    BytesNeeded(n);
    Digits(256, n)
  }

  /** '1' is the zero of Base58. */
  lemma {:induction false} IndexesOfOnes(text: string)
    requires IsBase58(text)
    ensures forall i :: 0 <= i < |text| ==> (Indexes(text)[i] == 0 <==> text[i] == '1')
  {
    IndexOfSymbol(0);
    assert CharOf(0) == '1';
  }

  lemma {:induction false} IndexesOfSymbols(digits: seq<int>)
    requires AreDigits(58, digits)
    ensures IsBase58(Symbols(digits)) && Indexes(Symbols(digits)) == digits
  {
    forall i | 0 <= i < |digits| ensures IndexOf(Symbols(digits)[i]) == digits[i] {
      IndexOfSymbol(digits[i]);
    }
  }

  lemma {:induction false} SplitZeros(s: seq<int>)
    ensures s == Zeros(LeadingZeros(s)) + s[LeadingZeros(s)..]
  {
  }

  lemma {:induction false} EncodedDigitsShape(data: seq<byte>)
    ensures EncodedDigits(data) != []
    ensures Value(58, EncodedDigits(data)) == Value(256, data)
    ensures Value(256, data) >= 0 && Digits(256, Value(256, data)) == data[LeadingZeros(data)..]
    ensures LeadingZeros(EncodedDigits(data)) == LeadingZeros(data) + (if LeadingZeros(data) == |data| then 1 else 0)
  {
    var k := LeadingZeros(data);
    DigitsOfValue(256, data);
    var out := Digits(58, Value(256, data));
    if out == [] {
      assert EncodedDigits(data) == Zeros(k + 1) + [];
      ZerosThenDigits(k + 1, []);
      ValueOfPadded(58, k + 1, []);
    } else {
      ZerosThenDigits(k, out);
      ValueOfPadded(58, k, out);
      ValueOfDigits(58, Value(256, data));
    }
  }

  /** What digits stand for by their places: each counts `base` times the place to its right. */
  function Positional(base: nat, s: seq<int>): int {
    if s == [] then 0 else s[0] * Power(base, |s| - 1) + Positional(base, s[1..])
  }

  function Power(base: nat, n: nat): nat {
    if n == 0 then 1 else base * Power(base, n - 1)
  }

  lemma {:induction false} PositionalLast(base: nat, s: seq<int>, d: int)
    ensures Positional(base, s + [d]) == base * Positional(base, s) + d
  {
    if s == [] {
      assert [d][1..] == [];
    } else {
      PositionalLast(base, s[1..], d);
      assert (s + [d])[1..] == s[1..] + [d];
      ScaleFirst(base, s[0], Power(base, |s| - 1), Positional(base, s[1..]));
    }
  }

  lemma {:induction false} ScaleFirst(base: nat, a: int, p: int, rest: int)
    ensures base * (a * p + rest) == a * (base * p) + base * rest
  {
  }

  lemma {:induction false} ValueIsPositional(base: nat, s: seq<int>)
    ensures Value(base, s) == Positional(base, s)
  {
    if s != [] {
      var n := |s| - 1;
      ValueIsPositional(base, s[..n]);
      PositionalLast(base, s[..n], s[n]);
      assert s == s[..n] + [s[n]];
    }
  }

  /**
   The text is the number that the bytes spell, first byte most significant, in the 58 symbols, first symbol most
   significant; before it one '1' for each leading zero byte, and one more where there is nothing else.
   */
  lemma {:induction false} EncodeSpells(data: seq<byte>)
    ensures IsBase58(Encode(data)) && Positional(58, Indexes(Encode(data))) == Positional(256, data)
    ensures LeadingZeros(Indexes(Encode(data)))
         == LeadingZeros(data) + (if LeadingZeros(data) == |data| then 1 else 0)
    ensures forall i :: 0 <= i < |Encode(data)| ==> (Encode(data)[i] == '1' <==> Indexes(Encode(data))[i] == 0)
  {
    hide CharOf, Value, EncodedDigits, IsBase58, LeadingZeros, Positional;
    var digits := EncodedDigits(data);
    IndexesOfSymbols(digits);
    EncodedDigitsShape(data);
    ValueIsPositional(58, digits);
    ValueIsPositional(256, data);
    IndexesOfOnes(Encode(data));
  }

  /** Decoding an encoding gives the bytes back, and one zero byte too many for an all-zero (or empty) string. */
  lemma {:induction false} EncodeThenDecode(data: seq<byte>)
    ensures Encode(data) != ""
    ensures Decode(Encode(data)) == Ok(if LeadingZeros(data) < |data| then data else Zeros(|data| + 1))
    ensures Decode(Encode(data)) == Ok(data) <==> LeadingZeros(data) < |data|
  {
    hide CharOf, Value, Digits, EncodedDigits, IsBase58, LeadingZeros;
    var digits := EncodedDigits(data);
    IndexesOfSymbols(digits);
    EncodedDigitsShape(data);
    SplitZeros(data);
    if LeadingZeros(data) == |data| {
      assert DecodedBytes(digits) == Zeros(|data| + 1);
    } else {
      assert DecodedBytes(digits) == data;
    }
  }

  lemma {:induction false} DecodedBytesShape(digits: seq<int>)
    requires AreDigits(58, digits)
    ensures LeadingZeros(DecodedBytes(digits)) == LeadingZeros(digits)
    ensures Value(256, DecodedBytes(digits)) == Value(58, digits) >= 0
    ensures Digits(58, Value(58, digits)) == digits[LeadingZeros(digits)..]
  {
    DigitsOfValue(58, digits);
    var bytes := Digits(256, Value(58, digits));
    ZerosThenDigits(LeadingZeros(digits), bytes);
    ValueOfPadded(256, LeadingZeros(digits), bytes);
    ValueOfDigits(256, Value(58, digits));
  }

  /**
   The bytes are the number that the text spells, with one leading zero byte for each leading '1'. An empty text and one
   with a character that is no symbol are refused.
   */
  lemma {:induction false} DecodeSpells(text: string)
    ensures text == "" ==> Decode(text) == Err(EmptyText)
    ensures text != "" && (exists i :: 0 <= i < |text| && IndexOf(text[i]) == 58) ==> Decode(text) == Err(BadCharacter)
    ensures text != "" && (forall i :: 0 <= i < |text| ==> IndexOf(text[i]) < 58) ==>
              && Decode(text).Ok?
              && Positional(256, Decode(text).value) == Positional(58, Indexes(text))
              && LeadingZeros(Decode(text).value) == LeadingZeros(Indexes(text))
  {
    hide CharOf, Value, LeadingZeros, Positional, DecodedBytes, IndexOf;
    if text != "" && IsBase58(text) {
      DecodedBytesShape(Indexes(text));
      ValueIsPositional(58, Indexes(text));
      ValueIsPositional(256, Decode(text).value);
    }
  }

  lemma {:induction false} SymbolsOfIndexes(text: string)
    requires IsBase58(text)
    ensures Symbols(Indexes(text)) == text
  {
  }

  /** Encoding what a Base58 text decodes to gives the text back, except for a text of '1's only. */
  lemma {:induction false} DecodeThenEncode(text: string)
    requires text != "" && IsBase58(text)
    ensures Encode(Decode(text).value) == text <==> exists i :: 0 <= i < |text| && text[i] != '1'
  {
    var digits := Indexes(text);
    var k := LeadingZeros(digits);
    IndexesOfOnes(text);
    DecodedBytesShape(digits);
    SplitZeros(digits);
    SymbolsOfIndexes(text);
    if k < |text| {
      assert text[k] != '1';
      assert EncodedDigits(DecodedBytes(digits)) == digits;
    } else {
      assert |EncodedDigits(DecodedBytes(digits))| == k + 1;
    }
  }
}

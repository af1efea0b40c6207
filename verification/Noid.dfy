/** Deterministic NOID names: base-29 counters, weighted check digits, minting and validation. */
module Noid {
  import opened Wrappers
  import Text

  const ALPHABET: string := "0123456789bcdfghjkmnpqrstvwxz"
  const BASE: int := 29

  // ---------- the alphabet ----------

  lemma AlphabetAscends(i: nat, j: nat)
    requires i < j < BASE
    ensures |ALPHABET| == BASE && ALPHABET[i] < ALPHABET[j]
    decreases j - i
  {
    if j == i + 1 {
      assert ALPHABET[i] < ALPHABET[i + 1];
    } else {
      AlphabetAscends(i, i + 1);
      AlphabetAscends(i + 1, j);
    }
  }

  /** Position of `c` in the alphabet at or after `i`, or BASE. */
  function IndexFrom(c: char, i: nat): (k: nat)
    requires i <= BASE
    ensures k <= BASE && (k < BASE ==> ALPHABET[k] == c)
    decreases BASE - i
  {
    if i == BASE then BASE else if ALPHABET[i] == c then i else IndexFrom(c, i + 1)
  }

  /** Characters outside the alphabet count as 0. */
  function Ordinal(c: char): (v: nat)
    ensures v < BASE
  {
    var k := IndexFrom(c, 0);
    if k == BASE then 0 else k
  }

  lemma {:induction false} IndexFromFinds(k: nat, i: nat)
    requires i <= k < BASE
    ensures IndexFrom(ALPHABET[k], i) == k
    decreases k - i
  {
    if i < k {
      AlphabetAscends(i, k);
      IndexFromFinds(k, i + 1);
    }
  }

  lemma OrdinalOfDigit(k: nat)
    requires k < BASE
    ensures Ordinal(ALPHABET[k]) == k
  {
    IndexFromFinds(k, 0);
  }

  lemma AlphabetIsLower(k: nat)
    requires k < BASE
    ensures Text.LowerChar(ALPHABET[k]) == ALPHABET[k]
  {
  }

  // ---------- encoding ----------

  datatype NoidError = NegativeCounter | BadLength | NameRequired | CheckdigitMismatch

  /** The digits of `n`, most significant first, without padding. */
  function Digits(n: nat): string {
    if n < BASE then [ALPHABET[n]] else Digits(n / BASE) + [ALPHABET[n % BASE]]
  }

  function Zeros(k: nat): string { seq(k, _ => '0') }

  function PadLeft(s: string, length: nat): string {
    if |s| >= length then s else Zeros(length - |s|) + s
  }

  function Encode(n: nat, minLength: nat): string { PadLeft(Digits(n), minLength) }

  function Reverse(s: string): (r: string)
    ensures |r| == |s|
  {
    if s == "" then "" else Reverse(s[1..]) + [s[0]]
  }

  lemma {:induction false} ReverseAppend(s: string, c: char)
    ensures Reverse(s + [c]) == [c] + Reverse(s)
  {
    if s != "" {
      assert (s + [c])[1..] == s[1..] + [c];
      ReverseAppend(s[1..], c);
    } else {
      assert s + [c] == [c] && [c][1..] == "";
    }
  }

  /** encode_counter: divide, collect remainders, reverse, pad. */
  method EncodeCounter(counter: int, minLength: int) returns (r: Result<string, NoidError>)
    ensures counter < 0 ==> r == Err(NegativeCounter)
    ensures counter >= 0 && minLength < 1 ==> r == Err(BadLength)
    ensures counter >= 0 && minLength >= 1 ==> r == Ok(Encode(counter, minLength))
  {
    if counter < 0 { return Err(NegativeCounter); }
    if minLength < 1 { return Err(BadLength); }
    var n: nat, reversed: string := counter, "";
    var more := true;
    while more
      invariant more ==> Digits(counter) == Digits(n) + Reverse(reversed)
      invariant !more ==> Digits(counter) == Reverse(reversed)
      decreases more, n
    {
      var remainder := n % BASE;
      ReverseAppend(reversed, ALPHABET[remainder]);
      assert n >= BASE ==>
               Digits(n) + Reverse(reversed) == Digits(n / BASE) + ([ALPHABET[remainder]] + Reverse(reversed));
      n := n / BASE;
      reversed := reversed + [ALPHABET[remainder]];
      more := n != 0;
    }
    return Ok(PadLeft(Reverse(reversed), minLength));
  }

  // ---------- decoding, the reference the encoding is measured by ----------

  function Decode(s: string): nat {
    if s == "" then 0 else Decode(s[..|s| - 1]) * BASE + Ordinal(s[|s| - 1])
  }

  lemma {:induction false} DecodeDigits(n: nat)
    ensures Decode(Digits(n)) == n
  {
    if n < BASE {
      OrdinalOfDigit(n);
      assert Digits(n)[..0] == "";
    } else {
      DecodeDigits(n / BASE);
      OrdinalOfDigit(n % BASE);
      assert Digits(n)[..|Digits(n)| - 1] == Digits(n / BASE);
    }
  }

  lemma {:induction false} DecodeZeros(k: nat, s: string)
    ensures Decode(Zeros(k) + s) == Decode(s)
    decreases |s|, k
  {
    if s == "" {
      if k > 0 {
        OrdinalOfDigit(0);
        assert (Zeros(k) + s)[..k - 1] == Zeros(k - 1) + s;
        DecodeZeros(k - 1, s);
      }
    } else {
      assert (Zeros(k) + s)[..|Zeros(k) + s| - 1] == Zeros(k) + s[..|s| - 1];
      DecodeZeros(k, s[..|s| - 1]);
    }
  }

  /** Decoding inverts the encoding, for every counter and every minimum length. */
  lemma DecodeEncode(n: nat, minLength: nat)
    ensures Decode(Encode(n, minLength)) == n
  {
    DecodeDigits(n);
    if |Digits(n)| < minLength {
      DecodeZeros(minLength - |Digits(n)|, Digits(n));
    }
  }

  /** So no two counters share an encoding, even past the nominal capacity or across lengths. */
  lemma EncodeInjective(n: nat, m: nat, oneLength: nat, otherLength: nat)
    requires Encode(n, oneLength) == Encode(m, otherLength)
    ensures n == m
  {
    DecodeEncode(n, oneLength);
    DecodeEncode(m, otherLength);
  }

  function Capacity(length: nat): nat {
    if length == 0 then 1 else Capacity(length - 1) * BASE
  }

  lemma {:induction false} DigitsFit(n: nat, length: nat)
    requires length >= 1
    ensures |Digits(n)| <= length <==> n < Capacity(length)
    decreases length
  {
    if length == 1 {
      assert Capacity(1) == Capacity(0) * BASE == BASE;
    } else if n >= BASE {
      DigitsFit(n / BASE, length - 1);
      assert Capacity(length) == Capacity(length - 1) * BASE;
    } else {
      CapacityAtLeastBase(length);
    }
  }

  lemma {:induction false} CapacityAtLeastBase(length: nat)
    requires length >= 1
    ensures Capacity(length) >= BASE
  {
    if length == 1 {
      assert Capacity(1) == Capacity(0) * BASE == BASE;
    } else {
      CapacityAtLeastBase(length - 1);
    }
  }

  /** The length is exactly the minimum length as long as, and only as long as, the counter is within capacity. */
  lemma EncodedLength(n: nat, minLength: nat)
    requires minLength >= 1
    ensures |Encode(n, minLength)| >= minLength
    ensures |Encode(n, minLength)| == minLength <==> n < Capacity(minLength)
  {
    DigitsFit(n, minLength);
  }

  lemma {:induction false} DigitsInAlphabet(n: nat, i: nat)
    requires i < |Digits(n)|
    ensures Digits(n)[i] in ALPHABET
  {
    if n >= BASE && i < |Digits(n)| - 1 {
      DigitsInAlphabet(n / BASE, i);
    }
  }

  lemma EncodedInAlphabet(n: nat, minLength: nat, i: nat)
    requires i < |Encode(n, minLength)|
    ensures Encode(n, minLength)[i] in ALPHABET
  {
    assert ALPHABET[0] == '0';
    var pad := if |Digits(n)| >= minLength then 0 else minLength - |Digits(n)|;
    if i >= pad {
      DigitsInAlphabet(n, i - pad);
    }
  }

  // ---------- order ----------

  /** Python's string order: the first differing character decides, a proper prefix comes first. */
  predicate StringLess(a: string, b: string) {
    b != "" && (a == "" || a[0] < b[0] || (a[0] == b[0] && StringLess(a[1..], b[1..])))
  }

  ghost predicate InAlphabet(s: string) {
    forall i :: 0 <= i < |s| ==> s[i] in ALPHABET
  }

  lemma OrdinalOrder(c: char, d: char)
    requires c in ALPHABET && d in ALPHABET
    ensures c < d <==> Ordinal(c) < Ordinal(d)
  {
    var i :| 0 <= i < BASE && ALPHABET[i] == c;
    var j :| 0 <= j < BASE && ALPHABET[j] == d;
    OrdinalOfDigit(i);
    OrdinalOfDigit(j);
    if i < j {
      AlphabetAscends(i, j);
    } else if j < i {
      AlphabetAscends(j, i);
    }
  }

  lemma {:induction false} DecodeHead(s: string)
    requires s != ""
    ensures Decode(s) == Ordinal(s[0]) * Capacity(|s| - 1) + Decode(s[1..])
    ensures Decode(s[1..]) < Capacity(|s| - 1)
    decreases |s|
  {
    hide Ordinal;
    if |s| == 1 {
      assert s[..0] == "" && s[1..] == "";
      assert Decode(s) == Decode("") * BASE + Ordinal(s[0]);
    } else {
      var init, last := s[..|s| - 1], Ordinal(s[|s| - 1]);
      DecodeHead(init);
      assert s[1..][..|s| - 2] == init[1..];
      assert Capacity(|s| - 1) == Capacity(|s| - 2) * BASE;
      HornerStep(Ordinal(s[0]), Capacity(|s| - 2), Decode(init[1..]), last);
    }
  }

  lemma HornerStep(head: nat, capacity: nat, rest: nat, last: nat)
    requires rest < capacity && last < BASE
    ensures (head * capacity + rest) * BASE + last == head * (capacity * BASE) + (rest * BASE + last)
    ensures rest * BASE + last < capacity * BASE
  {
    assert rest * BASE + BASE == (rest + 1) * BASE <= capacity * BASE;
  }

  /** On equal lengths, string order is numeric order. */
  lemma {:induction false} StringOrderIsNumericOrder(a: string, b: string)
    requires |a| == |b| && InAlphabet(a) && InAlphabet(b)
    ensures StringLess(a, b) <==> Decode(a) < Decode(b)
    decreases |a|
  {
    hide Ordinal;
    if a != "" {
      DecodeHead(a);
      DecodeHead(b);
      OrdinalOrder(a[0], b[0]);
      OrdinalOrder(b[0], a[0]);
      StringOrderIsNumericOrder(a[1..], b[1..]);
      HeadDecides(Ordinal(a[0]), Ordinal(b[0]), Capacity(|a| - 1), Decode(a[1..]), Decode(b[1..]));
      if Ordinal(a[0]) == Ordinal(b[0]) {
        assert a[0] == b[0];
      }
    }
  }

  lemma HeadDecides(h: nat, k: nat, capacity: nat, r: nat, t: nat)
    requires r < capacity && t < capacity
    ensures h < k ==> h * capacity + r < k * capacity + t
    ensures k < h ==> k * capacity + t < h * capacity + r
  {
    if h < k {
      assert h * capacity + capacity == (h + 1) * capacity <= k * capacity;
    } else if k < h {
      assert k * capacity + capacity == (k + 1) * capacity <= h * capacity;
    }
  }

  /** Within capacity, encoded names sort as their counters do. */
  lemma EncodedOrder(n: nat, m: nat, length: nat)
    requires length >= 1 && n < Capacity(length) && m < Capacity(length)
    ensures StringLess(Encode(n, length), Encode(m, length)) <==> n < m
  {
    EncodedLength(n, length);
    EncodedLength(m, length);
    forall i | 0 <= i < length ensures Encode(n, length)[i] in ALPHABET && Encode(m, length)[i] in ALPHABET {
      EncodedInAlphabet(n, length, i);
      EncodedInAlphabet(m, length, i);
    }
    StringOrderIsNumericOrder(Encode(n, length), Encode(m, length));
    DecodeEncode(n, length);
    DecodeEncode(m, length);
  }

  // ---------- check digit ----------

  function Value(c: char): nat { Ordinal(Text.LowerChar(c)) }

  function Values(s: string): (v: seq<int>)
    ensures |v| == |s| && forall i :: 0 <= i < |s| ==> v[i] == Value(s[i])
  {
    seq(|s|, i requires 0 <= i < |s| => Value(s[i]))
  }

  /** Sum of value times one-based position. */
  function WeightedSum(v: seq<int>): int {
    if v == [] then 0 else WeightedSum(v[..|v| - 1]) + v[|v| - 1] * |v|
  }

  function ComputeCheckdigit(payload: string): char { ALPHABET[WeightedSum(Values(payload)) % BASE] }

  function ValidateName(naan: string, name: string): Result<(), NoidError> {
    if name == "" then Err(NameRequired)
    else if Text.LowerChar(name[|name| - 1]) != ComputeCheckdigit(naan + "/" + name[..|name| - 1])
      then Err(CheckdigitMismatch)
    else Ok(())
  }

  lemma {:induction false} SumUpdate(v: seq<int>, i: nat, x: int)
    requires i < |v|
    ensures WeightedSum(v[i := x]) - WeightedSum(v) == (x - v[i]) * (i + 1)
  {
    var init := v[..|v| - 1];
    if i == |v| - 1 {
      assert v[i := x][..|v| - 1] == init;
      Distribute(x, v[i], i + 1);
    } else {
      assert v[i := x][..|v| - 1] == init[i := x];
      SumUpdate(init, i, x);
    }
  }

  lemma Distribute(a: int, b: int, n: int)
    ensures a * n - b * n == (a - b) * n
  {
  }

  /** The weighted sum after exchanging two values. */
  lemma SumSwap(v: seq<int>, i: nat, j: nat)
    requires i < j < |v|
    ensures WeightedSum(v[i := v[j]][j := v[i]]) - WeightedSum(v) == (v[i] - v[j]) * (j - i)
  {
    SumUpdate(v, i, v[j]);
    SumUpdate(v[i := v[j]], j, v[i]);
    SwapArithmetic(v[j] - v[i], i, j);
  }

  lemma SwapArithmetic(d: int, i: int, j: int)
    ensures d * (i + 1) + -d * (j + 1) == -d * (j - i)
  {
  }

  /** 29 is prime: a product is a multiple of it only when a factor is. */
  lemma PrimeBase(d: int, p: int)
    requires -29 < d < 29 && d != 0
    ensures (d * p) % 29 == 0 <==> p % 29 == 0
  {
    var inverse, k := InverseOf(d);
    if (d * p) % 29 == 0 {
      var q := d * p / 29;
      Regroup(inverse, d, p, k, q);
      MultipleOf29(inverse * q - k * p);
    } else if p % 29 == 0 {
      var r := p / 29;
      assert d * (29 * r) == 29 * (d * r);
      MultipleOf29(d * r);
    }
  }

  lemma MultipleOf29(x: int)
    ensures (29 * x) % 29 == 0
  {
  }

  lemma Regroup(inverse: int, d: int, p: int, k: int, q: int)
    requires inverse * d == 1 + 29 * k && d * p == 29 * q
    ensures p == 29 * (inverse * q - k * p)
  {
    assert inverse * (d * p) == (inverse * d) * p;
    assert inverse * (29 * q) == 29 * (inverse * q);
    assert (1 + 29 * k) * p == p + 29 * (k * p);
  }

  /** The inverses modulo 29 of 1, 2, ..., 28. */
  const INVERSES: seq<int> :=
    [1, 15, 10, 22, 6, 5, 25, 11, 13, 3, 8, 17, 9, 27, 2, 20, 12, 21, 26, 16, 18, 4, 24, 23, 7, 19, 14, 28]

  lemma InverseOf(d: int) returns (inverse: int, k: int)
    requires -29 < d < 29 && d != 0
    ensures inverse * d == 1 + 29 * k
  {
    var positive := if d > 0 then d else -d;
    inverse := if d > 0 then INVERSES[positive - 1] else -INVERSES[positive - 1];
    k := (inverse * d - 1) / 29;
  }

  /** Two payloads get the same check digit exactly when their sums differ by a multiple of 29. */
  lemma SameCheckdigit(p: string, q: string)
    ensures ComputeCheckdigit(p) == ComputeCheckdigit(q) <==>
              (WeightedSum(Values(q)) - WeightedSum(Values(p))) % 29 == 0
  {
    SameDigit(WeightedSum(Values(p)), WeightedSum(Values(q)));
  }

  lemma SameDigit(a: int, b: int)
    ensures ALPHABET[a % BASE] == ALPHABET[b % BASE] <==> (b - a) % 29 == 0
  {
    Congruent(a, b);
    DistinctDigits(a % 29, b % 29);
  }

  lemma Congruent(a: int, b: int)
    ensures (b - a) % 29 == 0 <==> a % 29 == b % 29
  {
  }

  lemma DistinctDigits(i: nat, j: nat)
    requires i < 29 && j < 29
    ensures ALPHABET[i] == ALPHABET[j] <==> i == j
  {
    if i < j {
      AlphabetAscends(i, j);
    } else if j < i {
      AlphabetAscends(j, i);
    }
  }

  /** One-based position of stem character `i` in the checked payload. */
  function PayloadPosition(naan: string, i: nat): nat { |naan| + 1 + i + 1 }

  lemma StemUpdate(naan: string, name: string, i: nat, c: char)
    requires i < |name| - 1
    ensures var payload := naan + "/" + name[..|name| - 1];
            && naan + "/" + name[i := c][..|name| - 1] == payload[PayloadPosition(naan, i) - 1 := c]
            && payload[PayloadPosition(naan, i) - 1] == name[i]
  {
    assert name[i := c][..|name| - 1] == name[..|name| - 1][i := c];
  }

  /** Replacing one payload character changes the check digit exactly when its position is not a multiple of 29. */
  lemma PayloadSubstitution(payload: string, position: nat, c: char)
    requires 1 <= position <= |payload| && Value(c) != Value(payload[position - 1])
    ensures ComputeCheckdigit(payload) != ComputeCheckdigit(payload[position - 1 := c]) <==> position % 29 != 0
  {
    hide Ordinal, WeightedSum;
    var v := Values(payload);
    assert Values(payload[position - 1 := c]) == v[position - 1 := Value(c)];
    SumUpdate(v, position - 1, Value(c));
    SameCheckdigit(payload, payload[position - 1 := c]);
    PrimeBase(Value(c) - v[position - 1], position);
  }

  /** Exchanging two payload characters changes it exactly when their distance is not a multiple of 29. */
  lemma PayloadSwap(payload: string, i: nat, j: nat)
    requires i < j < |payload| && Value(payload[i]) != Value(payload[j])
    ensures ComputeCheckdigit(payload) != ComputeCheckdigit(Swap(payload, i, j)) <==> (j - i) % 29 != 0
  {
    hide Ordinal, WeightedSum;
    var v := Values(payload);
    assert Values(Swap(payload, i, j)) == v[i := v[j]][j := v[i]];
    SumSwap(v, i, j);
    SameCheckdigit(payload, Swap(payload, i, j));
    PrimeBase(v[i] - v[j], j - i);
  }

  /**
   * Replacing one stem character of a valid name by one of another value is detected exactly when the
   * character's payload position is not a multiple of 29.
   */
  lemma SubstitutionDetected(naan: string, name: string, i: nat, c: char)
    requires ValidateName(naan, name).Ok? && i < |name| - 1 && Value(c) != Value(name[i])
    ensures ValidateName(naan, name[i := c]).Err? <==> PayloadPosition(naan, i) % 29 != 0
  {
    hide Ordinal, WeightedSum;
    StemUpdate(naan, name, i, c);
    var payload := naan + "/" + name[..|name| - 1];
    var position := PayloadPosition(naan, i);
    PayloadSubstitution(payload, position, c);
    ValidMeans(naan, name);
    ValidMeans(naan, name[i := c]);
  }

  lemma ValidMeans(naan: string, name: string)
    requires name != ""
    ensures ValidateName(naan, name).Ok? <==>
              Text.LowerChar(name[|name| - 1]) == ComputeCheckdigit(naan + "/" + name[..|name| - 1])
  {
  }

  /** Replacing the check digit is detected exactly when the new character is not the old one in another case. */
  lemma CheckdigitReplacementDetected(naan: string, name: string, c: char)
    requires ValidateName(naan, name).Ok?
    ensures ValidateName(naan, name[|name| - 1 := c]).Err? <==> Text.LowerChar(c) != Text.LowerChar(name[|name| - 1])
    ensures c in ALPHABET && c != Text.LowerChar(name[|name| - 1]) ==> ValidateName(naan, name[|name| - 1 := c]).Err?
  {
    assert name[|name| - 1 := c][..|name| - 1] == name[..|name| - 1];
    if c in ALPHABET {
      var k :| 0 <= k < BASE && ALPHABET[k] == c;
      AlphabetIsLower(k);
    }
  }

  function Swap(s: string, i: nat, j: nat): string
    requires i < |s| && j < |s|
  {
    s[i := s[j]][j := s[i]]
  }

  /**
   * Exchanging two stem characters of different value is detected exactly when their distance is not a multiple of 29.
   */
  lemma TranspositionDetected(naan: string, name: string, i: nat, j: nat)
    requires ValidateName(naan, name).Ok? && i < j < |name| - 1 && Value(name[i]) != Value(name[j])
    ensures ValidateName(naan, Swap(name, i, j)).Err? <==> (j - i) % 29 != 0
  {
    hide Ordinal, WeightedSum;
    StemUpdate(naan, name, i, name[j]);
    StemUpdate(naan, name, j, name[i]);
    StemUpdate(naan, name[i := name[j]], j, name[i]);
    ValidMeans(naan, name);
    ValidMeans(naan, Swap(name, i, j));
    PayloadSwap(naan + "/" + name[..|name| - 1], PayloadPosition(naan, i) - 1, PayloadPosition(naan, j) - 1);
  }

  /** In particular every exchange of neighbours of different value. */
  lemma AdjacentTranspositionDetected(naan: string, name: string, i: nat)
    requires ValidateName(naan, name).Ok? && i + 1 < |name| - 1 && Value(name[i]) != Value(name[i + 1])
    ensures ValidateName(naan, Swap(name, i, i + 1)) == Err(CheckdigitMismatch)
  {
    TranspositionDetected(naan, name, i, i + 1);
  }

  // ---------- which check digit ----------

  /** The character counts as its position in the alphabet, in capitals or small letters, and as 0 outside it. */
  predicate CountsAs(c: char, value: int) {
    || (0 <= value < BASE && Text.SameLetter(c, ALPHABET[value]))
    || (value == 0 && forall k :: 0 <= k < BASE ==> !Text.SameLetter(c, ALPHABET[k]))
  }

  lemma ValueMeans(c: char)
    ensures CountsAs(c, Value(c))
    ensures forall v :: CountsAs(c, v) ==> v == Value(c)
  {
    forall k | 0 <= k < BASE ensures Text.SameLetter(c, ALPHABET[k]) <==> Text.LowerChar(c) == ALPHABET[k] {
      AlphabetIsLower(k);
      Text.LowerEqual([c], [ALPHABET[k]]);
      LowerOne(c);
      LowerOne(ALPHABET[k]);
    }
    forall k | 0 <= k < BASE && Text.LowerChar(c) == ALPHABET[k] ensures Value(c) == k {
      OrdinalOfDigit(k);
    }
    if forall k :: 0 <= k < BASE ==> Text.LowerChar(c) != ALPHABET[k] {
      NotIndexed(Text.LowerChar(c), 0);
    }
  }

  lemma LowerOne(c: char)
    ensures Text.Lower([c]) == [Text.LowerChar(c)]
  {
  }

  lemma {:induction false} NotIndexed(c: char, i: nat)
    requires i <= BASE && forall k :: 0 <= k < BASE ==> ALPHABET[k] != c
    ensures IndexFrom(c, i) == BASE
    decreases BASE - i
  {
    if i < BASE {
      NotIndexed(c, i + 1);
    }
  }

  /** Sum of value times one-based position, from the first character on. */
  function SumFrom(values: seq<int>, position: nat): int
    decreases |values|
  {
    if values == [] then 0 else values[0] * position + SumFrom(values[1..], position + 1)
  }

  lemma {:induction false} SumFromIsWeighted(values: seq<int>, position: nat)
    ensures SumFrom(values, position) == WeightedSum(values) + Total(values) * (position - 1)
    decreases |values|
  {
    if values != [] {
      SumFromIsWeighted(values[1..], position + 1);
      SumHead(values);
      Spread(values[0], Total(values[1..]), position);
    }
  }

  function Total(values: seq<int>): int { if values == [] then 0 else values[0] + Total(values[1..]) }

  lemma Spread(head: int, rest: int, position: int)
    ensures head * position + rest * position == head + rest + (head + rest) * (position - 1)
  {
  }

  lemma {:induction false} SumHead(values: seq<int>)
    requires values != []
    ensures WeightedSum(values) == values[0] + WeightedSum(values[1..]) + Total(values[1..])
    decreases |values|
  {
    if |values| == 1 {
      assert values[..0] == [] && values[1..] == [];
      assert WeightedSum(values) == WeightedSum(values[..0]) + values[0] * 1;
    } else {
      var init, last := values[..|values| - 1], values[|values| - 1];
      SumHead(init);
      assert init[1..] == values[1..][..|values| - 2];
      TotalLast(values[1..]);
    }
  }

  lemma {:induction false} TotalLast(values: seq<int>)
    requires values != []
    ensures Total(values) == Total(values[..|values| - 1]) + values[|values| - 1]
    decreases |values|
  {
    if |values| > 1 {
      TotalLast(values[1..]);
      assert values[1..][..|values| - 2] == values[..|values| - 1][1..];
    } else {
      assert values[..0] == [] && values[1..] == [];
    }
  }

  /** The check digit stands in the alphabet at the sum of the characters' values times their places, modulo 29. */
  lemma CheckdigitMeans(payload: string, values: seq<int>)
    requires |values| == |payload| && forall i :: 0 <= i < |payload| ==> CountsAs(payload[i], values[i])
    ensures ComputeCheckdigit(payload) == ALPHABET[SumFrom(values, 1) % 29]
  {
    hide CountsAs, Value, WeightedSum, SumFrom;
    ValuesAre(payload, values);
    SumFromOne(values);
  }

  lemma ValuesAre(payload: string, values: seq<int>)
    requires |values| == |payload| && forall i :: 0 <= i < |payload| ==> CountsAs(payload[i], values[i])
    ensures values == Values(payload)
  {
    hide CountsAs, Value;
    forall i | 0 <= i < |payload| ensures values[i] == Value(payload[i]) {
      ValueMeans(payload[i]);
    }
  }

  lemma SumFromOne(values: seq<int>)
    ensures SumFrom(values, 1) == WeightedSum(values)
  {
    SumFromIsWeighted(values, 1);
  }

  /** Capitals and small letters make no difference. */
  lemma CheckdigitIgnoresCase(p: string, q: string)
    requires Text.EqualIgnoringCase(p, q)
    ensures ComputeCheckdigit(p) == ComputeCheckdigit(q)
  {
    hide Value;
    forall i | 0 <= i < |p| ensures Value(p[i]) == Value(q[i]) {
      ValueIgnoresCase(p[i], q[i]);
    }
    assert Values(p) == Values(q);
  }

  lemma ValueIgnoresCase(c: char, d: char)
    requires Text.SameLetter(c, d)
    ensures Value(c) == Value(d)
  {
    assert Text.LowerChar(c) == Text.LowerChar(d);
    hide Ordinal;
  }

  /** A character outside the alphabet, as the slash is, contributes what '0' contributes: nothing. */
  lemma OutsideCountsNothing(payload: string, i: nat)
    requires i < |payload| && forall k :: 0 <= k < BASE ==> !Text.SameLetter(payload[i], ALPHABET[k])
    ensures ComputeCheckdigit(payload[i := '0']) == ComputeCheckdigit(payload)
  {
    ValueMeans(payload[i]);
    DigitValues();
    assert CountsAs(payload[i], 0);
    assert Values(payload[i := '0']) == Values(payload);
  }

  /** The example of the Noid documentation. */
  lemma PublishedExample()
    ensures ComputeCheckdigit("13030/xf93gt2") == 'q'
  {
    hide CountsAs, SumFrom, ComputeCheckdigit;
    var payload, values := "13030/xf93gt2", [1, 3, 0, 3, 0, 0, 27, 13, 9, 3, 14, 24, 2];
    ValuesOfExample();
    CheckdigitMeans(payload, values);
    SumOfExample();
    assert ALPHABET[21] == 'q';
  }

  lemma ValuesOfExample()
    ensures CountsAs('1', 1) && CountsAs('3', 3) && CountsAs('0', 0) && CountsAs('/', 0) && CountsAs('x', 27)
    ensures CountsAs('f', 13) && CountsAs('9', 9) && CountsAs('g', 14) && CountsAs('t', 24) && CountsAs('2', 2)
  {
  }

  lemma SumOfExample()
    ensures SumFrom([1, 3, 0, 3, 0, 0, 27, 13, 9, 3, 14, 24, 2], 1) == 891
  {
    var v := [1, 3, 0, 3, 0, 0, 27, 13, 9, 3, 14, 24, 2];
    hide SumFrom;
    SumOfTail(v);
    SumStep(v, 0);
    SumStep(v, 1);
    SumStep(v, 2);
    SumStep(v, 3);
    SumStep(v, 4);
    SumStep(v, 5);
    SumStep(v, 6);
    assert v[0..] == v;
  }

  lemma SumOfTail(v: seq<int>)
    requires |v| == 13 && v[7] == 13 && v[8] == 9 && v[9] == 3 && v[10] == 14 && v[11] == 24 && v[12] == 2
    ensures SumFrom(v[7..], 8) == 683
  {
    hide SumFrom;
    SumStep(v, 7);
    SumStep(v, 8);
    SumStep(v, 9);
    SumStep(v, 10);
    SumStep(v, 11);
    SumStep(v, 12);
  }

  lemma SumStep(values: seq<int>, k: nat)
    requires k < |values|
    ensures SumFrom(values[k..], k + 1) == values[k] * (k + 1) + SumFrom(values[k + 1..], k + 2)
    ensures SumFrom(values[|values|..], |values| + 1) == 0
  {
    assert values[k..][1..] == values[k + 1..];
  }

  // ---------- minting ----------

  function MintName(naan: string, counter: nat, shoulder: string, minLength: nat, checkdigit: bool): string {
    var name := shoulder + Encode(counter, minLength);
    if checkdigit then name + [ComputeCheckdigit(naan + "/" + name)] else name
  }

  function MintArk(naan: string, counter: nat, shoulder: string, minLength: nat, checkdigit: bool): string {
    "ark:" + naan + "/" + MintName(naan, counter, shoulder, minLength, checkdigit)
  }

  /** Every minted name passes its own validation. */
  lemma MintedNameValidates(naan: string, counter: nat, shoulder: string, minLength: nat)
    ensures ValidateName(naan, MintName(naan, counter, shoulder, minLength, true)) == Ok(())
  {
    var stem := shoulder + Encode(counter, minLength);
    var name := MintName(naan, counter, shoulder, minLength, true);
    assert name[..|name| - 1] == stem;
    AlphabetIsLower(WeightedSum(Values(naan + "/" + stem)) % BASE);
  }

  lemma OneEncoded(length: nat)
    requires length >= 1
    ensures |Encode(1, length)| == length && Encode(1, length)[length - 1] == '1'
    ensures length > 1 ==> Encode(1, length)[0] == '0'
  {
    assert ALPHABET[0] == '0' && ALPHABET[1] == '1';
    assert Digits(1) == [ALPHABET[1]];
  }

  /** A minted name in which a wrong character goes unnoticed: its last stem character is the 29th of the payload. */
  lemma SubstitutionUndetected()
    ensures var name := MintName("12345", 1, "", 23, true);
            && |name| == 24 && name[22] == '1' && ValidateName("12345", name).Ok?
            && ValidateName("12345", name[22 := '2']).Ok?
  {
    hide Digits, ComputeCheckdigit;
    OneEncoded(23);
    MintedNameValidates("12345", 1, "", 23);
    DigitValues();
    SubstitutionDetected("12345", MintName("12345", 1, "", 23, true), 22, '2');
  }

  /** A minted name in which an exchange goes unnoticed: the two characters are 29 places apart. */
  lemma TranspositionUndetected()
    ensures var name := MintName("12345", 1, "", 30, true);
            && |name| == 31 && name[0] == '0' && name[29] == '1' && ValidateName("12345", name).Ok?
            && ValidateName("12345", Swap(name, 0, 29)).Ok?
  {
    hide Digits, ComputeCheckdigit;
    OneEncoded(30);
    MintedNameValidates("12345", 1, "", 30);
    DigitValues();
    TranspositionDetected("12345", MintName("12345", 1, "", 30, true), 0, 29);
  }

  lemma DigitValues()
    ensures Value('0') == 0 && Value('1') == 1 && Value('2') == 2
  {
    OrdinalOfDigit(0);
    OrdinalOfDigit(1);
    OrdinalOfDigit(2);
    assert ALPHABET[0] == '0' && ALPHABET[1] == '1' && ALPHABET[2] == '2';
  }

  /** Different counters of one namespace never mint the same name. */
  lemma MintedNamesDiffer(naan: string, n: nat, m: nat, shoulder: string, minLength: nat, checkdigit: bool)
    requires MintName(naan, n, shoulder, minLength, checkdigit) == MintName(naan, m, shoulder, minLength, checkdigit)
    ensures n == m
  {
    var a, b := MintName(naan, n, shoulder, minLength, checkdigit), MintName(naan, m, shoulder, minLength, checkdigit);
    var stem := if checkdigit then |a| - 1 else |a|;
    assert a[..stem] == shoulder + Encode(n, minLength) && b[..stem] == shoulder + Encode(m, minLength);
    assert a[..stem][|shoulder|..] == Encode(n, minLength) && b[..stem][|shoulder|..] == Encode(m, minLength);
    EncodeInjective(n, m, minLength, minLength);
  }

  /**
   * Nor do counters of different namespaces: NAANs contain no slash, and shoulders have one fixed length.
   */
  lemma MintedArksDiffer(naan: string, n: nat, shoulder: string, naan': string, n': nat, shoulder': string,
                         minLength: nat)
    requires '/' !in naan && '/' !in naan' && |shoulder| == |shoulder'|
    requires MintArk(naan, n, shoulder, minLength, true) == MintArk(naan', n', shoulder', minLength, true)
    ensures naan == naan' && shoulder == shoulder' && n == n'
  {
    hide Ordinal, WeightedSum, Digits;
    var a, b := MintName(naan, n, shoulder, minLength, true), MintName(naan', n', shoulder', minLength, true);
    var x, y := "ark:" + naan + "/" + a, "ark:" + naan' + "/" + b;
    assert x[4..] == naan + "/" + a && y[4..] == naan' + "/" + b;
    FirstSlash(naan, a, naan', b);
    assert a[..|shoulder|] == shoulder && b[..|shoulder|] == shoulder';
    MintedNamesDiffer(naan, n, n', shoulder, minLength, true);
  }

  lemma FirstSlash(p: string, a: string, q: string, b: string)
    requires '/' !in p && '/' !in q && p + "/" + a == q + "/" + b
    ensures p == q && a == b
  {
    var s := p + "/" + a;
    assert s == q + "/" + b;
    forall k | 0 <= k < |p| ensures s[k] != '/' {
      assert s[k] == p[k] && p[k] in p;
    }
    forall k | 0 <= k < |q| ensures s[k] != '/' {
      assert s[k] == q[k] && q[k] in q;
    }
    assert s[|p|] == '/' && s[|q|] == '/';
    assert s[..|p|] == p && s[..|q|] == q;
    assert s[|p| + 1..] == a && s[|q| + 1..] == b;
  }
}

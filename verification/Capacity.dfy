/** Reading a capacity: a decimal count of 512-byte sectors, as 64-bit bytes. */
module Capacity {
  import opened Text
  import opened Inventory

  const UINT64_MAX: nat := 0xFFFF_FFFF_FFFF_FFFF
  const SECTOR: nat := 512

  predicate AllDigits(s: string) {
    forall i :: 0 <= i < |s| ==> IsDigit(s[i])
  }

  function Value(s: string): nat
    requires AllDigits(s)
  {
    if s == "" then 0 else Value(s[..|s| - 1]) * 10 + (s[|s| - 1] as int - '0' as int)
  }

  /** The bytes, or the issue recorded instead; `raw` is absent or untrusted evidence. */
  function ParseCapacity(raw: Option<string>, unreliable: bool): (r: Result<nat, Option<BlockIssueCode>>)
    ensures r.Success? ==> r.value <= UINT64_MAX && r.value % SECTOR == 0
  {
    if raw.None? || unreliable then Failure(None)
    else
      var text := Trimmed(raw.value);
      if text == "" || !AllDigits(text) then Failure(Some(MalformedAttribute))
      else if Value(text) > UINT64_MAX || Value(text) > UINT64_MAX / SECTOR then Failure(Some(CapacityOverflow))
      else Success(Value(text) * SECTOR)
  }

  lemma {:induction false} ValueOfDecimal(n: nat)
    ensures AllDigits(Decimal(n)) && Value(Decimal(n)) == n
  {
    DecimalDigits(n);
    if n >= 10 {
      ValueOfDecimal(n / 10);
      var front := Decimal(n / 10);
      assert Decimal(n)[..|Decimal(n)| - 1] == front;
      assert n == n / 10 * 10 + n % 10;
    } else {
      assert Decimal(n)[..0] == "";
    }
  }

  /** A sector count survives its decimal spelling exactly when its bytes fit in 64
      bits, and is otherwise reported as too large, not wrapped. */
  lemma CapacityRoundTrip(sectors: nat)
    ensures ParseCapacity(Some(Decimal(sectors)), false) ==
      if sectors * SECTOR <= UINT64_MAX then Success(sectors * SECTOR) else Failure(Some(CapacityOverflow))
  {
    ValueOfDecimal(sectors);
    DecimalDigits(sectors);
    assert TrimLeft(Decimal(sectors)) == Decimal(sectors);
    assert TrimRight(Decimal(sectors)) == Decimal(sectors);
  }

  // Which texts are read, and as what

  function Zeros(k: nat): string {
    seq(k, i => '0')
  }

  /** The text is the number `n` in decimal, behind `k` leading zeros. */
  predicate Denotes(text: string, k: nat, n: nat) {
    Trimmed(text) == Zeros(k) + Decimal(n)
  }

  lemma {:induction false} ValuePadded(k: nat, t: string)
    requires AllDigits(t)
    ensures AllDigits(Zeros(k) + t) && Value(Zeros(k) + t) == Value(t)
    decreases k + |t|
  {
    var s := Zeros(k) + t;
    if t != "" {
      ValuePadded(k, t[..|t| - 1]);
      assert s[..|s| - 1] == Zeros(k) + t[..|t| - 1];
    } else if k > 0 {
      ValuePadded(k - 1, t);
      assert s[..k - 1] == Zeros(k - 1) + t;
    }
  }

  lemma DenotePush(k: nat, v: nat, d: nat)
    requires d < 10
    ensures Zeros(k) + Decimal(v) + [Digit(d)] == if v == 0 then Zeros(k + 1) + Decimal(d) else Zeros(k) + Decimal(v * 10 + d)
  {
    if v == 0 {
      assert Zeros(k) + "0" == Zeros(k + 1);
    } else {
      assert (v * 10 + d) / 10 == v && (v * 10 + d) % 10 == d;
    }
  }

  /** The zeros in front of the number. */
  function Padding(s: string): nat
    requires AllDigits(s)
  {
    if |s| <= 1 then 0 else Padding(s[..|s| - 1]) + if Value(s[..|s| - 1]) == 0 then 1 else 0
  }

  lemma {:induction false} DigitsDenote(s: string)
    requires s != "" && AllDigits(s)
    ensures s == Zeros(Padding(s)) + Decimal(Value(s))
  {
    hide Zeros;
    var front, d := s[..|s| - 1], s[|s| - 1] as int - '0' as int;
    assert s == front + [Digit(d)];
    if front == "" {
      OneDigit(d);
    } else {
      DigitsDenote(front);
      DenotePush(Padding(front), Value(front), d);
    }
  }

  lemma OneDigit(d: nat)
    requires d < 10
    ensures [Digit(d)] == Zeros(0) + Decimal(d)
  {
  }

  /** Evidence of n sectors is read as their bytes exactly when these fit in 64 bits,
      and is otherwise too large, never wrapped. */
  lemma CapacityIsExact(text: string, k: nat, n: nat)
    requires Denotes(text, k, n)
    ensures ParseCapacity(Some(text), false) ==
      if n * SECTOR <= UINT64_MAX then Success(n * SECTOR) else Failure(Some(CapacityOverflow))
  {
    ValueOfDecimal(n);
    DecimalDigits(n);
    ValuePadded(k, Decimal(n));
  }

  /** Exactly the texts that are no decimal number are malformed. */
  lemma CapacityMalformed(text: string)
    ensures ParseCapacity(Some(text), false) == Failure(Some(MalformedAttribute)) <==> !exists k: nat, n: nat :: Denotes(text, k, n)
  {
    var s := Trimmed(text);
    if k: nat, n: nat :| Denotes(text, k, n) {
      CapacityIsExact(text, k, n);
    } else if s != "" && AllDigits(s) {
      DigitsDenote(s);
      assert Denotes(text, Padding(s), Value(s));
    }
  }
}

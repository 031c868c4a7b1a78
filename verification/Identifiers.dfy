/**
 The identifiers the coordinator generates, and the checks that requests carrying them must pass.
 */
module Identifiers {
  import Text

  // ---- the request checks ----

  const MAX_WORKER_ID := 64
  const MAX_TASK_ID := 256
  const MAX_LEASE_ID := 128

  predicate SafeChar(c: char) {
    'a' <= c <= 'z' || 'A' <= c <= 'Z' || '0' <= c <= '9' || c == '-' || c == '_' || c == '.'
  }

  ghost predicate Safe(value: string, limit: int) {
    value != "" && |value| <= limit && forall i :: 0 <= i < |value| ==> SafeChar(value[i])
  }

  /** validateSafeIdentifier, and ValidateWorkerID, which makes the same checks. */
  method ValidateSafe(value: string, limit: int) returns (ok: bool)
    ensures ok <==> Safe(value, limit)
  {
    if forall i :: 0 <= i < |value| ==> SafeChar(value[i]) {
      Text.AsciiLength(value);
    }
    if value == "" || Text.ByteLength(value) > limit {
      return false;
    }
    for i := 0 to |value|
      invariant forall j :: 0 <= j < i ==> SafeChar(value[j])
    {
      var c := value[i];
      if 'a' <= c <= 'z' || 'A' <= c <= 'Z' || '0' <= c <= '9' || c == '-' || c == '_' || c == '.' {
        continue;
      }
      return false;
    }
    return true;
  }

  // ---- decimal numerals ----

  function DigitChar(d: int): char
    requires 0 <= d < 10
  {
    '0' + d as char
  }

  predicate IsDigit(c: char) {
    '0' <= c <= '9'
  }

  function Decimal(n: nat): (s: string)
    ensures s != "" && forall i :: 0 <= i < |s| ==> IsDigit(s[i])
  {
    if n < 10 then [DigitChar(n)] else Decimal(n / 10) + [DigitChar(n % 10)]
  }

  /** The %d form: a leading minus for negative numbers. */
  function SignedDecimal(n: int): string {
    if n < 0 then "-" + Decimal(-n) else Decimal(n)
  }

  /** The value a numeral denotes. */
  function Value(s: string): int {
    if s == "" then 0 else 10 * Value(s[..|s| - 1]) + (s[|s| - 1] as int - '0' as int)
  }

  lemma {:induction false} ValueOfDecimal(n: nat)
    ensures Value(Decimal(n)) == n
  {
    var s := Decimal(n);
    if n < 10 {
      assert s[..|s| - 1] == "";
    } else {
      ValueOfDecimal(n / 10);
      assert s[..|s| - 1] == Decimal(n / 10);
    }
  }

  lemma SignedDecimalInjective(a: int, b: int)
    requires SignedDecimal(a) == SignedDecimal(b)
    ensures a == b
  {
    var s := SignedDecimal(a);
    assert (a < 0) == (s[0] == '-') by { assert a >= 0 ==> IsDigit(Decimal(a)[0]); }
    assert (b < 0) == (s[0] == '-') by { assert b >= 0 ==> IsDigit(Decimal(b)[0]); }
    if a < 0 {
      assert s[1..] == Decimal(-a) && s[1..] == Decimal(-b);
      ValueOfDecimal(-a);
      ValueOfDecimal(-b);
    } else {
      ValueOfDecimal(a);
      ValueOfDecimal(b);
    }
  }

  function Pow10(k: nat): (p: int)
    ensures p >= 1
  {
    if k == 0 then 1 else 10 * Pow10(k - 1)
  }

  lemma {:induction false} DecimalLength(n: nat, k: nat)
    requires 1 <= k && n < Pow10(k)
    ensures |Decimal(n)| <= k
  {
    if n < 10 {
    } else {
      DecimalLength(n / 10, k - 1);
    }
  }

  // ---- generated identifiers ----

  function JobId(nanos: int): string {
    "pull-job-" + SignedDecimal(nanos)
  }

  function TaskId(nanos: int, index: nat): string {
    JobId(nanos) + "-task-" + Decimal(index)
  }

  lemma JobIdInjective(a: int, b: int)
    requires JobId(a) == JobId(b)
    ensures a == b
  {
    assert JobId(a)[9..] == SignedDecimal(a);
    assert JobId(b)[9..] == SignedDecimal(b);
    SignedDecimalInjective(a, b);
  }

  lemma SomeDecimals()
    ensures Decimal(1700) == "1700" && Decimal(12) == "12" && Decimal(3) == "3"
  {
    assert Decimal(1) == "1";
    assert Decimal(17) == "17";
    assert Decimal(170) == "170";
  }

  lemma SomeBytes()
    ensures Hex([175, 0]) == "af00"
  {
    assert [175, 0][1..] == [0] && [0][1..] == [];
    assert Hex([0]) == "00";
  }

  /** The forms, by example. */
  lemma GeneratedForms()
    ensures JobId(1700) == "pull-job-1700" && TaskId(1700, 12) == "pull-job-1700-task-12"
    ensures FallbackLeaseId(1700, 3) == "lease-1700-3"
    ensures Hex([175, 0]) == "af00"
  {
    hide Decimal;
    SomeDecimals();
    SomeBytes();
  }

  /** Two strings that end in nothing but digits after a non-digit split in the same place. */
  lemma SameDigitTail(p: string, d: string, q: string, e: string)
    requires p + d == q + e && p != "" && q != ""
    requires !IsDigit(p[|p| - 1]) && !IsDigit(q[|q| - 1])
    requires forall i :: 0 <= i < |d| ==> IsDigit(d[i])
    requires forall i :: 0 <= i < |e| ==> IsDigit(e[i])
    ensures p == q && d == e
  {
    var s := p + d;
    assert s[|p| - 1] == p[|p| - 1] && s[|q| - 1] == q[|q| - 1];
    assert |p| == |q|;
    assert s[..|p|] == p && s[..|q|] == q && s[|p|..] == d && s[|q|..] == e;
  }

  /** Distinct (submission, index) pairs get distinct task IDs. */
  lemma TaskIdInjective(a: int, i: nat, b: int, j: nat)
    requires TaskId(a, i) == TaskId(b, j)
    ensures a == b && i == j
  {
    SameDigitTail(JobId(a) + "-task-", Decimal(i), JobId(b) + "-task-", Decimal(j));
    assert (JobId(a) + "-task-")[..|JobId(a)|] == JobId(a);
    assert (JobId(b) + "-task-")[..|JobId(b)|] == JobId(b);
    JobIdInjective(a, b);
    ValueOfDecimal(i);
    ValueOfDecimal(j);
  }

  lemma SafeConcat(a: string, b: string)
    requires forall i :: 0 <= i < |a| ==> SafeChar(a[i])
    requires forall i :: 0 <= i < |b| ==> SafeChar(b[i])
    ensures forall i :: 0 <= i < |a + b| ==> SafeChar((a + b)[i])
  {
  }

  lemma SignedDecimalSafe(n: int)
    requires -0x8000_0000_0000_0000 <= n < 0x8000_0000_0000_0000
    ensures |SignedDecimal(n)| <= 20
    ensures forall i :: 0 <= i < |SignedDecimal(n)| ==> SafeChar(SignedDecimal(n)[i])
  {
    assert Pow10(19) == 10_000_000_000_000_000_000 by {
      assert Pow10(5) == 100_000;
      assert Pow10(10) == 10_000_000_000;
      assert Pow10(15) == 1_000_000_000_000_000;
    }
    DecimalLength(if n < 0 then -n else n, 19);
  }

  /** Every task ID the coordinator generates from a 64-bit clock passes the check that renew and result
      requests make on it. */
  lemma GeneratedTaskIdAccepted(nanos: int, index: nat)
    requires -0x8000_0000_0000_0000 <= nanos < 0x8000_0000_0000_0000 && index < 1000
    ensures Safe(TaskId(nanos, index), MAX_TASK_ID)
  {
    SignedDecimalSafe(nanos);
    assert Pow10(3) == 1000;
    DecimalLength(index, 3);
    SafeConcat("pull-job-", SignedDecimal(nanos));
    SafeConcat(JobId(nanos), "-task-");
    SafeConcat(JobId(nanos) + "-task-", Decimal(index));
  }

  function HexChar(d: int): char
    requires 0 <= d < 16
  {
    if d < 10 then '0' + d as char else 'a' + (d - 10) as char
  }

  /** hex.EncodeToString */
  function Hex(bytes: seq<int>): (s: string)
    requires forall i :: 0 <= i < |bytes| ==> 0 <= bytes[i] < 256
    ensures |s| == 2 * |bytes| && forall i :: 0 <= i < |s| ==> SafeChar(s[i])
  {
    if bytes == [] then "" else [HexChar(bytes[0] / 16), HexChar(bytes[0] % 16)] + Hex(bytes[1..])
  }

  /** generateLeaseID: 16 random bytes in hexadecimal, or clock and counter if no randomness is available. */
  function RandomLeaseId(bytes: seq<int>): string
    requires |bytes| == 16 && forall i :: 0 <= i < |bytes| ==> 0 <= bytes[i] < 256
  {
    Hex(bytes)
  }

  function FallbackLeaseId(nanos: int, counter: nat): string {
    "lease-" + SignedDecimal(nanos) + "-" + Decimal(counter)
  }

  lemma GeneratedLeaseIdAccepted(bytes: seq<int>, nanos: int, counter: nat)
    requires |bytes| == 16 && forall i :: 0 <= i < |bytes| ==> 0 <= bytes[i] < 256
    requires -0x8000_0000_0000_0000 <= nanos < 0x8000_0000_0000_0000 && counter < 0x1_0000_0000_0000_0000
    ensures Safe(RandomLeaseId(bytes), MAX_LEASE_ID) && Safe(FallbackLeaseId(nanos, counter), MAX_LEASE_ID)
  {
    SignedDecimalSafe(nanos);
    assert Pow10(20) == 100_000_000_000_000_000_000 by {
      assert Pow10(5) == 100_000;
      assert Pow10(10) == 10_000_000_000;
      assert Pow10(15) == 1_000_000_000_000_000;
    }
    DecimalLength(counter, 20);
    SafeConcat("lease-", SignedDecimal(nanos));
    SafeConcat("lease-" + SignedDecimal(nanos), "-");
    SafeConcat("lease-" + SignedDecimal(nanos) + "-", Decimal(counter));
  }

  /** Fallback lease IDs never repeat while the counter does not. */
  lemma FallbackLeaseIdInjective(a: int, i: nat, b: int, j: nat)
    requires FallbackLeaseId(a, i) == FallbackLeaseId(b, j)
    ensures a == b && i == j
  {
    SameDigitTail("lease-" + SignedDecimal(a) + "-", Decimal(i), "lease-" + SignedDecimal(b) + "-", Decimal(j));
    assert ("lease-" + SignedDecimal(a) + "-")[6..|SignedDecimal(a)| + 6] == SignedDecimal(a);
    assert ("lease-" + SignedDecimal(b) + "-")[6..|SignedDecimal(b)| + 6] == SignedDecimal(b);
    SignedDecimalInjective(a, b);
    ValueOfDecimal(i);
    ValueOfDecimal(j);
  }
}

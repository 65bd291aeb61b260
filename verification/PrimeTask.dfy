/** The worker's computation: a decimal payload in, a sentence about primality out. */
module PrimeTask {
  import opened Records
  import opened Primes

  const DIGITS: string := "0123456789"

  predicate IsDigit(c: char) { '0' <= c <= '9' }

  /** The payloads that pass the character test. */
  predicate IsNumeral(s: string) {
    s != "" && forall i :: 0 <= i < |s| ==> IsDigit(s[i])
  }

  function DigitValue(c: char): (v: nat)
    requires IsDigit(c)
    ensures v < 10 && DIGITS[v] == c
  {
    (c - '0') as nat
  }

  /** The number a string of digits denotes, leading zeros included. */
  function Value(s: string): nat
    requires forall i :: 0 <= i < |s| ==> IsDigit(s[i])
  {
    if s == "" then 0 else 10 * Value(s[..|s| - 1]) + DigitValue(s[|s| - 1])
  }

  /** Decimal notation without leading zeros. */
  function Decimal(n: nat): (s: string)
    ensures IsNumeral(s)
  {
    if n < 10 then [DIGITS[n]] else Decimal(n / 10) + [DIGITS[n % 10]]
  }

  /** Reading back what was written gives the number again. */
  lemma {:induction false} ValueOfDecimal(n: nat)
    ensures Value(Decimal(n)) == n
  {
    var s := Decimal(n);
    if n >= 10 {
      ValueOfDecimal(n / 10);
      assert s[..|s| - 1] == Decimal(n / 10);
    } else {
      assert s[..|s| - 1] == "";
    }
  }

  function Pow10(k: nat): nat { if k == 0 then 1 else 10 * Pow10(k - 1) }

  /** What the digits of `s` from place `i` on are worth, each by its distance from the last one. */
  function PlaceValue(s: string, i: nat): int
    requires i <= |s| && forall j :: 0 <= j < |s| ==> IsDigit(s[j])
    decreases |s| - i
  {
    if i == |s| then 0 else (s[i] as int - '0' as int) * Pow10(|s| - 1 - i) + PlaceValue(s, i + 1)
  }

  lemma {:induction false} PlaceValueShifts(s: string, c: char, i: nat)
    requires i <= |s| && IsDigit(c) && forall j :: 0 <= j < |s| ==> IsDigit(s[j])
    ensures PlaceValue(s + [c], i) == 10 * PlaceValue(s, i) + (c as nat - '0' as nat)
    decreases |s| - i
  {
    var t := s + [c];
    if i < |s| {
      PlaceValueShifts(s, c, i + 1);
      var d, p := s[i] as nat - '0' as nat, Pow10(|s| - 1 - i);
      assert t[i] == s[i] && Pow10(|t| - 1 - i) == 10 * p;
      assert d * (10 * p) == 10 * (d * p);
    } else {
      assert PlaceValue(t, i + 1) == 0 && Pow10(0) == 1;
    }
  }

  /** Reading a numeral digit by digit gives its place value: the first digit weighs most. */
  lemma {:induction false} ValueIsPositional(s: string)
    requires forall j :: 0 <= j < |s| ==> IsDigit(s[j])
    ensures Value(s) == PlaceValue(s, 0)
    ensures s != "" ==> Value(s) == 10 * Value(s[..|s| - 1]) + (s[|s| - 1] as nat - '0' as nat)
  {
    if s != "" {
      var front, c := s[..|s| - 1], s[|s| - 1];
      ValueIsPositional(front);
      assert s == front + [c];
      PlaceValueShifts(front, c, 0);
    }
  }

  /** The numeral without its leading zeros; zero keeps one digit. */
  function StripZeros(s: string): string {
    if |s| > 1 && s[0] == '0' then StripZeros(s[1..]) else s
  }

  predicate Canonical(s: string) { IsNumeral(s) && (|s| > 1 ==> s[0] != '0') }

  lemma {:induction false} CanonicalIsPositive(s: string)
    requires Canonical(s) && (|s| == 1 ==> s[0] != '0')
    ensures Value(s) > 0
  {
    if |s| > 1 { CanonicalIsPositive(s[..|s| - 1]); }
  }

  lemma {:induction false} CanonicalIsWrittenBack(s: string)
    requires Canonical(s)
    ensures Decimal(Value(s)) == s
  {
    var front, c := s[..|s| - 1], s[|s| - 1];
    assert s == front + [c];
    if |s| > 1 {
      CanonicalIsWrittenBack(front);
      CanonicalIsPositive(front);
      assert Value(s) / 10 == Value(front) && DIGITS[Value(s) % 10] == c;
    } else {
      assert front == "";
    }
  }

  lemma {:induction false} LeadingZeroIsWorthless(s: string)
    requires IsNumeral(s) && |s| > 1 && s[0] == '0'
    ensures IsNumeral(s[1..]) && Value(s) == Value(s[1..])
  {
    var t, front := s[1..], s[..|s| - 1];
    assert t[..|t| - 1] == front[1..] && t[|t| - 1] == s[|s| - 1];
    if |s| > 2 {
      LeadingZeroIsWorthless(front);
    } else {
      assert front == "0" && front[1..] == "" && front[..0] == "";
    }
  }

  /** Reading a numeral and writing it again drops its leading zeros and nothing else. */
  lemma {:induction false} ReadingAndWriting(s: string)
    requires IsNumeral(s)
    ensures Decimal(Value(s)) == StripZeros(s)
  {
    if |s| > 1 && s[0] == '0' {
      LeadingZeroIsWorthless(s);
      ReadingAndWriting(s[1..]);
    } else {
      CanonicalIsWrittenBack(s);
    }
  }

  ghost function FactorOf(n: nat): (f: nat)
    ensures n >= 2 && !IsPrime(n) ==> IsLeastFactor(f, n)
    ensures n < 2 ==> f == 0
  {
    if n >= 2 && !IsPrime(n) then LeastFactorExists(n, 2); var f: nat :| IsLeastFactor(f, n); f else 0
  }

  lemma LeastFactorExists(n: nat, from: nat)
    requires n >= 2 && 2 <= from <= n && NoDivisorBelow(n, from)
    ensures exists f :: IsLeastFactor(f, n)
    decreases n - from
  {
    if Divides(from, n) {
      assert IsLeastFactor(from, n);
    } else {
      assert from != n by { assert n % n == 0; }
      LeastFactorExists(n, from + 1);
    }
  }

  ghost function Sentence(n: nat): string {
    if IsPrime(n) then Decimal(n) + " is prime"
    else Decimal(n) + " is not prime (smallest factor: " + Decimal(FactorOf(n)) + ")"
  }

  /** The answer to a payload, or the message of the exception it raises. The second message is the
      one the C++ library gives its out-of-range error. */
  ghost function Answer(payload: string): Result<string, string> {
    if !IsNumeral(payload) then
      Failure("payload must be a positive integer, got: \"" + payload + "\"")
    else if Value(payload) >= WORD then
      Failure("stoull")
    else
      Success(Sentence(Value(payload)))
  }

  /** The payload denotes the number `n` in decimal notation. */
  ghost predicate Denotes(payload: string, n: nat) {
    IsNumeral(payload) && n == PlaceValue(payload, 0)
  }

  /** A payload has an answer exactly when it is a numeral for a number below 2^64. The sentence repeats
      the payload without its leading zeros and says "prime" exactly when the number is prime; otherwise
      it names the least factor, or 0 for the numbers 0 and 1. Any other payload raises one of two
      exceptions. */
  lemma AnswerTellsTheTruth(payload: string)
    ensures Answer(payload).Success? <==> exists n: nat :: Denotes(payload, n) && n < 0x1_0000_0000_0000_0000
    ensures forall n: nat :: Denotes(payload, n) && Answer(payload).Success? ==>
              var a := Answer(payload).value;
              && a != ""
              && (IsPrime(n) <==> a == StripZeros(payload) + " is prime")
              && (n < 2 ==> a == StripZeros(payload) + " is not prime (smallest factor: 0)")
              && (n >= 2 && !IsPrime(n) ==> exists f: string, v: nat ::
                    Denotes(f, v) && Canonical(f) && IsLeastFactor(v, n)
                    && a == StripZeros(payload) + " is not prime (smallest factor: " + f + ")")
    ensures Answer(payload).Failure? ==>
              Answer(payload).error == if IsNumeral(payload) then "stoull"
                                       else "payload must be a positive integer, got: \"" + payload + "\""
  {
    if IsNumeral(payload) {
      ValueIsPositional(payload);
      assert Denotes(payload, Value(payload));
      if Answer(payload).Success? { SentenceTellsTheTruth(payload); }
    }
  }

  lemma SentenceTellsTheTruth(payload: string)
    requires IsNumeral(payload)
    ensures var n, a := Value(payload), Sentence(Value(payload));
            && a != ""
            && (IsPrime(n) <==> a == StripZeros(payload) + " is prime")
            && (n < 2 ==> a == StripZeros(payload) + " is not prime (smallest factor: 0)")
            && (n >= 2 && !IsPrime(n) ==> exists f: string, v: nat ::
                  Denotes(f, v) && Canonical(f) && IsLeastFactor(v, n)
                  && a == StripZeros(payload) + " is not prime (smallest factor: " + f + ")")
  {
    var n := Value(payload);
    ReadingAndWriting(payload);
    var f := Decimal(FactorOf(n));
    var yes, no := StripZeros(payload) + " is prime", StripZeros(payload) + " is not prime (smallest factor: " + f + ")";
    assert yes[|yes| - 1] == 'e' && no[|no| - 1] == ')';
    WrittenIsCanonical(FactorOf(n));
    ValueOfDecimal(FactorOf(n));
    ValueIsPositional(f);
    assert Denotes(f, FactorOf(n));
  }

  lemma {:induction false} WrittenIsCanonical(n: nat)
    ensures Canonical(Decimal(n)) && (n > 0 ==> Decimal(n)[0] != '0')
  {
    if n >= 10 { WrittenIsCanonical(n / 10); }
  }

  /** Leading zeros do not change the answer. */
  lemma AnswerIgnoresLeadingZeros(payload: string)
    requires Answer(payload).Success?
    ensures Answer(Decimal(Value(payload))) == Answer(payload)
  {
    ValueOfDecimal(Value(payload));
  }

  /** `run_prime_task`. */
  method RunPrimeTask(payload: string) returns (r: Result<string, string>)
    ensures r == Answer(payload)
  {
    if !IsNumeral(payload) {
      return Failure("payload must be a positive integer, got: \"" + payload + "\"");
    }
    var n := Value(payload);
    if n >= WORD { return Failure("stoull"); }
    var p := CheckPrime(n);
    ExactIsUnique(n, p, PrimeResult(IsPrime(n), FactorOf(n)));
    if p.isPrime {
      r := Success(Decimal(n) + " is prime");
    } else {
      r := Success(Decimal(n) + " is not prime (smallest factor: " + Decimal(p.smallestFactor) + ")");
    }
  }
}

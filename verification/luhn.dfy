/** The Luhn check of card numbers: what it detects, and for which positions the generated digit is right. */
module Luhn {
  /** Remainder as C computes it: its sign is that of the dividend. */
  function CRem(n: int, m: int): int
    requires m > 0
  {
    if n >= 0 then n % m else -((-n) % m)
  }

  function DigitOf(c: char): int { c as int - '0' as int }

  /** What a digit adds to the sum: every second one from the right is doubled, and its digits added. */
  function Term(digit: int, fromRight: nat): int {
    if fromRight % 2 == 0 then digit
    else if 2 * digit <= 9 then 2 * digit
    else 2 * digit / 10 + 2 * digit % 10
  }

  /** A placeholder counts as zero. */
  function Counted(c: char): int { if c == '?' then 0 else DigitOf(c) }

  function Sum(card: string): int {
    if card == [] then 0 else Term(Counted(card[0]), |card| - 1) + Sum(card[1..])
  }

  predicate Tens(n: int) { n % 10 == 0 }

  predicate Passes(card: string) { Tens(Sum(card)) }

  /** Position of the first placeholder from the left. */
  function FirstMark(card: string): (k: nat)
    requires '?' in card
    ensures k < |card| && card[k] == '?'
  {
    if card[0] == '?' then 0 else 1 + FirstMark(card[1..])
  }

  /** The digit that is put in for a placeholder at this position. */
  function CheckDigit(sum: int, position: nat): (digit: int)
    ensures 0 <= digit <= 20
  {
    var d := 10 - CRem(sum, 10);
    var e := if d == 10 then 0 else d;
    if position % 2 == 0 then e + 1 else e
  }

  function ToChar(digit: int): char
    requires 0 <= digit <= 20
  {
    ('0' as int + digit) as char
  }

  /** A placeholder filled with a digit (or, by the program, with the character after '9'). */
  function Filled(card: string, k: nat, digit: int): string
    requires k < |card| && 0 <= digit <= 20
  {
    card[k := ToChar(digit)]
  }

  datatype Result = Generated(position: nat, digit: int) | Ok | Bad(remainder: int)

  function Check(card: string): (r: Result)
    ensures r.Generated? ==> r.position < |card| && 0 <= r.digit <= 20
  {
    if '?' in card then Generated(FirstMark(card), CheckDigit(Sum(card), FirstMark(card)))
    else if CRem(Sum(card), 10) != 0 then Bad(CRem(Sum(card), 10))
    else Ok
  }

  lemma MarkInFront(card: string, k: nat)
    requires k < |card|
    ensures card[k] == '?' ==> '?' in card[k..] && FirstMark(card[k..]) == 0
    ensures card[k] != '?' ==> ('?' in card[k..] <==> '?' in card[k + 1..])
    ensures card[k] != '?' && '?' in card[k..] ==> FirstMark(card[k..]) == FirstMark(card[k + 1..]) + 1
  {
    assert card[k..] == [card[k]] + card[k + 1..];
  }

  /** The digits are taken from the right; the last placeholder seen is the first from the left. */
  method SumUp(card: array<char>) returns (sum: int, luhnCheck: bool, checkPos: nat)
    ensures sum == Sum(card[..])
    ensures if '?' in card[..] then !luhnCheck && checkPos == FirstMark(card[..]) else luhnCheck
  {
    sum, luhnCheck, checkPos := 0, true, 0;
    var cardLen := card.Length;
    for i := 0 to cardLen
      invariant sum == Sum(card[cardLen - i..])
      invariant luhnCheck <==> '?' !in card[cardLen - i..]
      invariant !luhnCheck ==> checkPos == cardLen - i + FirstMark(card[cardLen - i..])
    {
      var k := cardLen - i - 1;
      var digit := DigitOf(card[k]);
      if card[k] == '?' {
        luhnCheck, checkPos, digit := false, k, 0;
      }
      if i % 2 == 0 {
        sum := sum + digit;
      } else {
        digit := digit * 2;
        if digit <= 9 {
          sum := sum + digit;
        } else {
          sum := sum + digit / 10;
          sum := sum + digit % 10;
        }
      }
      MarkInFront(card[..], k);
      assert card[..][k..] == card[k..] && card[..][k + 1..] == card[k + 1..] == card[k..][1..];
    }
    assert card[cardLen - cardLen..] == card[..];
  }

  /** A placeholder is filled in place; a number without one is only judged. */
  method CheckCard(card: array<char>) returns (result: Result)
    modifies card
    ensures result == Check(old(card[..]))
    ensures card[..] ==
      if result.Generated? then Filled(old(card[..]), result.position, result.digit) else old(card[..])
  {
    hide Sum;
    var sum, luhnCheck, checkPos := SumUp(card);
    if !luhnCheck {
      var checkDigit := 10 - CRem(sum, 10);
      if checkDigit == 10 {
        checkDigit := 0;
      }
      if checkPos % 2 == 0 {
        checkDigit := checkDigit + 1;
      }
      card[checkPos] := ToChar(checkDigit);
      result := Generated(checkPos, checkDigit);
    } else if CRem(sum, 10) != 0 {
      result := Bad(CRem(sum, 10));
    } else {
      result := Ok;
    }
  }

  // ------------------------------------------------------------ what is detected

  predicate IsDigit(c: char) { '0' <= c <= '9' }

  predicate AllDigits(card: string) { forall k :: 0 <= k < |card| ==> IsDigit(card[k]) }

  lemma {:induction false} SumChanges(card: string, k: nat, c: char)
    requires k < |card|
    ensures Sum(card[k := c])
      == Sum(card) - Term(Counted(card[k]), |card| - 1 - k) + Term(Counted(c), |card| - 1 - k)
  {
    if k > 0 {
      SumChanges(card[1..], k - 1, c);
      assert card[k := c][1..] == card[1..][k - 1 := c];
    } else {
      assert card[k := c][1..] == card[1..];
    }
  }

  lemma TensSum(a: int, b: int)
    requires Tens(a)
    ensures Tens(a + b) <==> Tens(b)
  {
  }

  lemma SmallTens(n: int)
    requires -9 <= n <= 9
    ensures Tens(n) <==> n == 0
  {
  }

  lemma TermValue(digit: int, fromRight: nat)
    requires 0 <= digit <= 9
    ensures Term(digit, fromRight) == if fromRight % 2 == 0 then digit else if digit <= 4 then 2 * digit else 2 * digit - 9
  {
  }

  /** Different digits add different amounts between 0 and 9, whatever the position. */
  lemma TermsDiffer(a: int, b: int, fromRight: nat)
    requires 0 <= a <= 9 && 0 <= b <= 9
    ensures 0 <= Term(a, fromRight) <= 9 && 0 <= Term(b, fromRight) <= 9
    ensures Term(a, fromRight) == Term(b, fromRight) <==> a == b
  {
    TermValue(a, fromRight);
    TermValue(b, fromRight);
    hide Term;
  }

  /** A number without placeholder is accepted exactly if it passes. */
  lemma CheckMeansPass(card: string)
    requires AllDigits(card)
    ensures Check(card) == if Passes(card) then Ok else Bad(Sum(card) % 10)
  {
    NoMark(card);
    DigitsSumUp(card);
    hide Sum;
  }

  lemma NoMark(card: string)
    requires AllDigits(card)
    ensures '?' !in card
  {
  }

  lemma SumStep(c: char, rest: string)
    ensures Sum([c] + rest) == Term(Counted(c), |rest|) + Sum(rest)
    ensures Sum([]) == 0
  {
    hide Term, Counted;
    assert ([c] + rest)[1..] == rest;
  }

  /** Every digit counts by its place from the right: once, or doubled with the digits of the double added. */
  lemma FourDigits(a: char, b: char, c: char, d: char)
    requires IsDigit(a) && IsDigit(b) && IsDigit(c) && IsDigit(d)
    ensures Sum([a, b, c, d]) == Doubled(DigitOf(a)) + DigitOf(b) + Doubled(DigitOf(c)) + DigitOf(d)
  {
    SumStep(d, []);
    SumStep(c, [d]);
    SumStep(b, [c, d]);
    SumStep(a, [b, c, d]);
    CountedDigit(a);
    CountedDigit(b);
    CountedDigit(c);
    CountedDigit(d);
    TermValue(DigitOf(a), 3);
    TermValue(DigitOf(c), 1);
    hide Sum, Counted, IsDigit, DigitOf;
    assert [d] + [] == [d] && [c] + [d] == [c, d] && [b] + [c, d] == [b, c, d] && [a] + [b, c, d] == [a, b, c, d];
  }

  /** Twice a digit, the digits of the result added. */
  function Doubled(digit: int): int { if digit < 5 then 2 * digit else 2 * digit - 9 }

  /** Four more digits in front leave the weights of the others as they are. */
  lemma {:induction false} SumApart(front: string, rest: string)
    requires |rest| % 2 == 0
    ensures Sum(front + rest) == Sum(front) + Sum(rest)
  {
    hide *;
    if front == [] {
      assert front + rest == rest;
      SumStep('0', rest);
    } else {
      assert front + rest == [front[0]] + (front[1..] + rest) && front == [front[0]] + front[1..];
      SumStep(front[0], front[1..] + rest);
      SumStep(front[0], front[1..]);
      SumApart(front[1..], rest);
      SameWeight(Counted(front[0]), |front| - 1, |front| - 1 + |rest|);
    }
  }

  lemma SameWeight(digit: int, n: nat, m: nat)
    requires n % 2 == m % 2
    ensures Term(digit, n) == Term(digit, m)
  {
  }

  /** One changed digit is always detected. */
  lemma SingleChangeDetected(card: string, k: nat, c: char)
    requires AllDigits(card) && k < |card| && IsDigit(c) && c != card[k] && Passes(card)
    ensures !Passes(card[k := c])
  {
    var n := |card| - 1 - k;
    assert IsDigit(card[k]);
    hide Sum, Term, Tens, Counted, IsDigit, AllDigits, DigitOf;
    SumChanges(card, k, c);
    CountedDigit(c);
    CountedDigit(card[k]);
    var after, before := Term(Counted(c), n), Term(Counted(card[k]), n);
    TermsDiffer(Counted(c), Counted(card[k]), n);
    TensSum(Sum(card), after - before);
    SmallTens(after - before);
  }

  lemma CountedDigit(c: char)
    requires IsDigit(c)
    ensures Counted(c) == DigitOf(c) && 0 <= DigitOf(c) <= 9 && c == ToChar(DigitOf(c))
  {
  }

  function SwapChange(a: int, b: int, n: nat): int { Term(a, n + 1) + Term(b, n) - Term(b, n + 1) - Term(a, n) }

  lemma SwapTerms(a: int, b: int, n: nat)
    requires 0 <= a <= 9 && 0 <= b <= 9
    ensures -9 <= SwapChange(a, b, n) <= 9
    ensures SwapChange(a, b, n) == 0 <==> a == b || (a == 0 && b == 9) || (a == 9 && b == 0)
  {
    TermValue(a, n);
    TermValue(b, n);
    TermValue(a, n + 1);
    TermValue(b, n + 1);
    hide Term;
    assert n % 2 == 0 <==> (n + 1) % 2 == 1;
  }

  function Swapped(card: string, k: nat): string
    requires k + 1 < |card|
  {
    card[k := card[k + 1]][k + 1 := card[k]]
  }

  lemma SwapSum(card: string, k: nat)
    requires k + 1 < |card|
    ensures Sum(Swapped(card, k)) == Sum(card) - SwapChange(Counted(card[k]), Counted(card[k + 1]), |card| - 2 - k)
  {
    hide *;
    var once, n := card[k := card[k + 1]], |card| - 2 - k;
    SumChanges(card, k, card[k + 1]);
    SumChanges(once, k + 1, card[k]);
    SwappedIs(card, k);
    SwapChangeIs(Counted(card[k]), Counted(card[k + 1]), n);
    assert |card| - 1 - k == n + 1 && |once| - 1 - (k + 1) == n;
  }

  lemma SwappedIs(card: string, k: nat)
    requires k + 1 < |card|
    ensures Swapped(card, k) == card[k := card[k + 1]][k + 1 := card[k]]
  {
  }

  lemma SwapChangeIs(a: int, b: int, n: nat)
    ensures SwapChange(a, b, n) == Term(a, n + 1) + Term(b, n) - Term(b, n + 1) - Term(a, n)
  {
    hide Term;
  }

  /** Two adjacent digits exchanged are detected, unless they are 0 and 9. */
  lemma SwapDetected(card: string, k: nat)
    requires AllDigits(card) && k + 1 < |card| && Passes(card)
    ensures Passes(Swapped(card, k)) <==> card[k] == card[k + 1] || {card[k], card[k + 1]} == {'0', '9'}
  {
    var a, b, n := Counted(card[k]), Counted(card[k + 1]), |card| - 2 - k;
    SwapSum(card, k);
    CountedDigit(card[k]);
    CountedDigit(card[k + 1]);
    SwapTerms(a, b, n);
    SameDigits(card[k], card[k + 1]);
    hide Sum, Term, Tens, Counted, IsDigit, DigitOf, SwapChange, Swapped;
    TensSum(Sum(card), -SwapChange(a, b, n));
    SmallTens(-SwapChange(a, b, n));
  }

  lemma SameDigits(c: char, d: char)
    requires IsDigit(c) && IsDigit(d)
    ensures {c, d} == {'0', '9'} <==> (DigitOf(c) == 0 && DigitOf(d) == 9) || (DigitOf(c) == 9 && DigitOf(d) == 0)
  {
    if {c, d} == {'0', '9'} {
      assert '0' in {c, d} && '9' in {c, d};
    }
  }

  // ------------------------------------------------------------ the generated digit

  /** A number with one placeholder. */
  predicate Marked(card: string, k: nat) {
    k < |card| && card[k] == '?' && forall j :: 0 <= j < |card| && j != k ==> IsDigit(card[j])
  }

  /** What is still missing to a multiple of ten. */
  function Missing(card: string): int { (10 - Sum(card) % 10) % 10 }

  lemma {:induction false} DigitsSumUp(card: string)
    requires forall k :: 0 <= k < |card| ==> IsDigit(card[k]) || card[k] == '?'
    ensures Sum(card) >= 0
  {
    if card != [] {
      DigitsSumUp(card[1..]);
    }
  }

  lemma {:induction false} MarkFound(card: string, k: nat)
    requires Marked(card, k)
    ensures '?' in card && FirstMark(card) == k
  {
    if k > 0 {
      assert IsDigit(card[0]);
      MarkFound(card[1..], k - 1);
    }
  }

  lemma FilledPasses(card: string, k: nat, digit: int)
    requires Marked(card, k) && 0 <= digit <= 10
    ensures Passes(Filled(card, k, digit)) <==> Term(digit, |card| - 1 - k) % 10 == Missing(card)
  {
    DigitsSumUp(card);
    SumChanges(card, k, ToChar(digit));
    FilledCounts(digit);
    NothingCounted(|card| - 1 - k);
    TermPositive(digit, |card| - 1 - k);
    hide Sum, Term, Tens, Counted;
    Complement(Sum(card), Term(digit, |card| - 1 - k));
  }

  lemma FilledDigitPasses(card: string, k: nat, digit: int)
    requires Marked(card, k) && 0 <= digit <= 9
    ensures Passes(Filled(card, k, digit)) <==> Term(digit, |card| - 1 - k) == Missing(card)
  {
    hide *;
    MarkInside(card, k);
    TermsDiffer(digit, digit, |card| - 1 - k);
    OneDigit(Term(digit, |card| - 1 - k));
    FilledPasses(card, k, digit);
  }

  lemma MarkInside(card: string, k: nat)
    requires Marked(card, k)
    ensures k < |card|
  {
  }

  lemma OneDigit(n: int)
    requires 0 <= n <= 9
    ensures n % 10 == n
  {
  }

  lemma FilledCounts(digit: int)
    requires 0 <= digit <= 10
    ensures Counted(ToChar(digit)) == digit
  {
  }

  lemma NothingCounted(fromRight: nat)
    ensures Term(Counted('?'), fromRight) == 0
  {
  }

  lemma TermPositive(digit: int, fromRight: nat)
    requires 0 <= digit <= 10
    ensures Term(digit, fromRight) >= 0
  {
  }

  lemma Complement(s: int, t: int)
    requires s >= 0 && t >= 0
    ensures Tens(s + t) <==> t % 10 == (10 - s % 10) % 10
  {
  }

  /** Which digits are right where: by weight and by the correction for even positions. */
  lemma RightDigit(missing: int, position: nat, fromRight: nat)
    requires 0 <= missing <= 9
    ensures var digit := if position % 2 == 0 then missing + 1 else missing;
      Term(digit, fromRight) % 10 == missing <==>
        if fromRight % 2 == 0 then position % 2 == 1
        else if position % 2 == 1 then missing == 0 || missing == 9
        else missing == 7
  {
  }

  /**
   * The generated number passes exactly if the placeholder is at an odd position of an even-length number; or at an
   * even one there and 7 is missing; or at an odd position of an odd-length number and 0 or 9 is missing.
   */
  lemma GeneratedPasses(card: string, k: nat)
    requires Marked(card, k)
    ensures Check(card).Generated? && Check(card).position == k && 0 <= Check(card).digit <= 10
    ensures Passes(Filled(card, k, Check(card).digit)) <==>
      if |card| % 2 == 0 then k % 2 == 1 || Missing(card) == 7
      else k % 2 == 1 && (Missing(card) == 0 || Missing(card) == 9)
  {
    hide *;
    GeneratedDigit(card, k);
    MissingDigit(card);
    FilledPasses(card, k, CheckDigit(Sum(card), k));
    RightDigit(Missing(card), k, |card| - 1 - k);
    Parities(|card|, k);
  }

  lemma Parities(n: nat, k: nat)
    requires k < n
    ensures (n - 1 - k) % 2 == 0 <==> (n % 2 == 0) == (k % 2 == 1)
  {
  }

  lemma MissingDigit(card: string)
    ensures 0 <= Missing(card) <= 9
  {
    hide Sum;
  }

  lemma PositiveDigit(sum: int, position: nat)
    requires sum >= 0
    ensures var missing := (10 - sum % 10) % 10;
      CheckDigit(sum, position) == if position % 2 == 0 then missing + 1 else missing
  {
  }

  /** The program computes what is missing, and adds one at even positions. */
  lemma GeneratedDigit(card: string, k: nat)
    requires Marked(card, k)
    ensures k < |card| && Check(card) == Generated(k, CheckDigit(Sum(card), k))
    ensures CheckDigit(Sum(card), k) == if k % 2 == 0 then Missing(card) + 1 else Missing(card)
  {
    MarkFound(card, k);
    DigitsSumUp(card);
    hide Sum, CheckDigit, FirstMark, IsDigit;
    PositiveDigit(Sum(card), k);
  }

  /** At an odd position of an even-length number the generated digit is the only one that passes. */
  lemma GeneratedUnique(card: string, k: nat, digit: int)
    requires Marked(card, k) && |card| % 2 == 0 && k % 2 == 1 && 0 <= digit <= 9
    ensures Passes(Filled(card, k, digit)) <==> digit == Check(card).digit
  {
    GeneratedPasses(card, k);
    GeneratedDigit(card, k);
    MissingDigit(card);
    hide Sum, Term, Passes, Check, CheckDigit, Missing, Filled, Marked;
    var right := Missing(card);
    TermsDiffer(digit, right, |card| - 1 - k);
    FilledDigitPasses(card, k, digit);
    FilledDigitPasses(card, k, right);
  }
}

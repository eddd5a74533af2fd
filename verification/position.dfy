/**
 Fractional positions: strings over 62 digits that sort in stack order.

 The order is the byte order of the strings. `Between` looks for a key between
 two others by recursion on their digits and gives up past a fixed depth; the
 lemmas below say exactly when what it returns is still in between.
 */
module Positions {
  import opened Common

  type Key = seq<char>

  const BASE: nat := 62
  const SPAN: nat := 62 * 62 * 62 * 62
  const MAX_DEPTH: nat := 128

  // ---------------------------------------------------------------- digits

  /** The digits in sort order: '0'..'9', 'A'..'Z', 'a'..'z'. */
  function DigitChar(v: nat): (c: char)
    requires v < BASE
    ensures IsDigit(c)
  {
    if v < 10 then '0' + v as char
    else if v < 36 then 'A' + (v - 10) as char
    else 'a' + (v - 36) as char
  }

  predicate IsDigit(c: char) {
    '0' <= c <= '9' || 'A' <= c <= 'Z' || 'a' <= c <= 'z'
  }

  /** A character's place among the digits; anything else counts as zero. */
  function Digit(c: char): (v: nat)
    ensures v < BASE
  {
    if '0' <= c <= '9' then (c - '0') as int
    else if 'A' <= c <= 'Z' then (c - 'A') as int + 10
    else if 'a' <= c <= 'z' then (c - 'a') as int + 36
    else 0
  }

  /** Digits and their values correspond, in order. */
  lemma DigitOrder(v: nat, w: nat)
    requires v < BASE && w < BASE
    ensures Digit(DigitChar(v)) == v
    ensures DigitChar(v) < DigitChar(w) <==> v < w
  {}

  lemma DigitInverse(c: char)
    requires IsDigit(c)
    ensures DigitChar(Digit(c)) == c
  {}

  predicate Digits(k: Key) {
    forall i :: 0 <= i < |k| ==> IsDigit(k[i])
  }

  /** The keys this module makes: digits, the last one not the smallest. */
  predicate WellFormed(k: Key) {
    Digits(k) && k != [] && k[|k| - 1] != '0'
  }

  const MIDDLE: Key := [DigitChar(31)]

  // ----------------------------------------------------------------- order

  predicate Less(a: Key, b: Key) {
    b != [] && (a == [] || a[0] < b[0] || (a[0] == b[0] && Less(a[1..], b[1..])))
  }

  lemma {:induction false} LessIrreflexive(a: Key)
    ensures !Less(a, a)
  {
    if a != [] { LessIrreflexive(a[1..]); }
  }

  lemma {:induction false} LessTransitive(a: Key, b: Key, c: Key)
    requires Less(a, b) && Less(b, c)
    ensures Less(a, c)
  {
    if a != [] && a[0] == b[0] == c[0] { LessTransitive(a[1..], b[1..], c[1..]); }
  }

  lemma {:induction false} LessTotal(a: Key, b: Key)
    ensures Less(a, b) || a == b || Less(b, a)
  {
    if a != [] && b != [] && a[0] == b[0] {
      LessTotal(a[1..], b[1..]);
      assert a == [a[0]] + a[1..] && b == [b[0]] + b[1..];
    }
  }

  lemma {:induction false} LessAfterPrefix(p: Key, a: Key, b: Key)
    ensures Less(p + a, p + b) <==> Less(a, b)
  {
    if p == [] {
      assert p + a == a && p + b == b;
    } else {
      assert (p + a)[1..] == p[1..] + a && (p + b)[1..] == p[1..] + b;
      LessAfterPrefix(p[1..], a, b);
    }
  }

  // --------------------------------------------------------------- between

  function PaddedDigit(a: Key, n: nat): char {
    if n < |a| then a[n] else '0'
  }

  /** How far `b` agrees with `a` padded by the smallest digit, from `n` on. */
  function SharedFrom(a: Key, b: Key, n: nat): (m: nat)
    requires n <= |b|
    ensures n <= m <= |b|
    ensures forall i :: n <= i < m ==> PaddedDigit(a, i) == b[i]
    ensures m < |b| ==> PaddedDigit(a, m) != b[m]
    decreases |b| - n
  {
    if n < |b| && PaddedDigit(a, n) == b[n] then SharedFrom(a, b, n + 1) else n
  }

  function Shared(a: Key, b: Key): (m: nat)
    ensures m <= |b|
  {
    SharedFrom(a, b, 0)
  }

  function Drop(a: Key, n: nat): Key {
    if n <= |a| then a[n..] else []
  }

  function HalfUp(a: nat, b: nat): nat {
    (a + b + 1) / 2
  }

  function LowDigit(a: Key): nat {
    if a == [] then 0 else Digit(a[0])
  }

  function HighDigit(b: Option<Key>): nat {
    if b.Some? && b.value != [] then Digit(b.value[0]) else BASE
  }

  /** The key halfway between `a` and `b` (`None`: no upper end). */
  function Midpoint(a: Key, b: Option<Key>, depth: nat): Key
    decreases MAX_DEPTH + 1 - depth
  {
    if depth > MAX_DEPTH then MIDDLE
    else if b.Some? && Shared(a, b.value) > 0 then
      var n := Shared(a, b.value);
      b.value[..n] + Midpoint(Drop(a, n), Some(b.value[n..]), depth + 1)
    else
      var da, db := LowDigit(a), HighDigit(b);
      if db > da + 1 then [DigitChar(HalfUp(da, db))]
      else if b.Some? && |b.value| > 1 then b.value[..1]
      else [DigitChar(da)] + Midpoint(Drop(a, 1), None, depth + 1)
  }

  /** An upper end below the lower one is ignored. */
  function UpperEnd(a: Option<Key>, b: Option<Key>): Option<Key> {
    if b.Some? && Less(a.UnwrapOr([]), b.value) then b else None
  }

  function Between(a: Option<Key>, b: Option<Key>): Key {
    Midpoint(a.UnwrapOr([]), UpperEnd(a, b), 0)
  }

  method SharedLength(a: Key, b: Key) returns (n: nat)
    ensures n == Shared(a, b)
  {
    n := 0;
    while n < |b| && PaddedDigit(a, n) == b[n]
      invariant n <= |b|
      invariant SharedFrom(a, b, n) == Shared(a, b)
    {
      n := n + 1;
    }
  }

  method FindMidpoint(a: Key, b: Option<Key>, depth: nat) returns (out: Key)
    ensures out == Midpoint(a, b, depth)
    decreases MAX_DEPTH + 1 - depth
  {
    if depth > MAX_DEPTH {
      return MIDDLE;
    }
    if b.Some? {
      var n := SharedLength(a, b.value);
      if n > 0 {
        var rest := FindMidpoint(Drop(a, n), Some(b.value[n..]), depth + 1);
        return b.value[..n] + rest;
      }
    }
    var da, db := LowDigit(a), HighDigit(b);
    if db > da + 1 {
      return [DigitChar(HalfUp(da, db))];
    }
    if b.Some? && |b.value| > 1 {
      return b.value[..1];
    }
    var rest := FindMidpoint(Drop(a, 1), None, depth + 1);
    out := [DigitChar(da)] + rest;
  }

  // --------------------------------------- when the result is in between

  /** `run` top digits, then a rest no smaller than the fallback digit. */
  predicate Exhausts(t: Key, run: nat) {
    |t| >= run && (forall i :: 0 <= i < run ==> t[i] == 'z') && !Less(t[run..], MIDDLE)
  }

  /** The recursion gives up inside the run of top digits that `a` has where it
      has to be stepped over digit by digit: from its start when nothing bounds
      it above, otherwise after the part shared with `b` and one more digit. */
  predicate GivesUp(a: Key, b: Option<Key>) {
    match b
    case None => Exhausts(a, MAX_DEPTH + 1)
    case Some(b) =>
      var n := Shared(a, b);
      |b| == n + 1 && n < |a| && Digit(b[n]) == Digit(a[n]) + 1 &&
      Exhausts(a[n + 1..], MAX_DEPTH - (if n > 0 then 1 else 0))
  }

  /** Nothing sorts strictly between a key and the same key with smallest
      digits added. */
  predicate OnlyZerosAdded(a: Key, b: Key) {
    |a| <= |b| && b[..|a|] == a && forall i :: |a| <= i < |b| ==> b[i] == '0'
  }

  // The three ways a level of the recursion can end, past the shared part.

  lemma MidpointTakesDigit(a: Key, b: Option<Key>, depth: nat)
    requires depth <= MAX_DEPTH && (b.Some? ==> Shared(a, b.value) == 0)
    requires HighDigit(b) > LowDigit(a) + 1 && HighDigit(b) <= BASE
    ensures Midpoint(a, b, depth) == [DigitChar(HalfUp(LowDigit(a), HighDigit(b)))]
  {}

  lemma MidpointTakesUpper(a: Key, b: Key, depth: nat)
    requires depth <= MAX_DEPTH && Shared(a, b) == 0
    requires HighDigit(Some(b)) <= LowDigit(a) + 1 && |b| > 1
    ensures Midpoint(a, Some(b), depth) == b[..1]
  {}

  lemma MidpointKeepsDigit(a: Key, b: Option<Key>, depth: nat)
    requires depth <= MAX_DEPTH && (b.Some? ==> Shared(a, b.value) == 0 && |b.value| <= 1)
    requires HighDigit(b) <= LowDigit(a) + 1
    ensures Midpoint(a, b, depth) == [DigitChar(LowDigit(a))] + Midpoint(Drop(a, 1), None, depth + 1)
  {}

  lemma {:induction false} AboveWithoutUpperEnd(t: Key, depth: nat)
    requires Digits(t) && depth <= MAX_DEPTH + 1
    ensures Less(t, Midpoint(t, None, depth)) <==> !Exhausts(t, MAX_DEPTH + 1 - depth)
    decreases MAX_DEPTH + 1 - depth
  {
    if depth <= MAX_DEPTH {
      var run := MAX_DEPTH + 1 - depth;
      if t == [] || t[0] != 'z' {
        MidpointTakesDigit(t, None, depth);
        assert LowDigit(t) < 61;
        DigitOrder(LowDigit(t), HalfUp(LowDigit(t), BASE));
      } else {
        MidpointKeepsDigit(t, None, depth);
        AboveWithoutUpperEnd(t[1..], depth + 1);
        ExhaustsStep(t, run);
        assert t == ['z'] + t[1..];
        LessAfterPrefix(['z'], t[1..], Midpoint(t[1..], None, depth + 1));
      }
    }
  }

  lemma ExhaustsStep(t: Key, run: nat)
    requires t != [] && t[0] == 'z' && run > 0
    ensures Exhausts(t, run) <==> Exhausts(t[1..], run - 1)
  {
    if |t| >= run {
      assert t[1..][run - 1..] == t[run..];
      assert forall i :: 0 < i < run ==> t[i] == t[1..][i - 1];
    }
  }

  /** Past the shared part the upper key's digit is the larger one, unless
      nothing of it is left. */
  lemma {:induction false} DigitAfterShared(a: Key, b: Key, n: nat)
    requires n <= |b| && Less(Drop(a, n), b[n..])
    requires forall i :: 0 <= i < n ==> PaddedDigit(a, i) == b[i]
    requires Digits(a) && Digits(b)
    ensures SharedFrom(a, b, n) < |b| ==>
              PaddedDigit(a, SharedFrom(a, b, n)) < b[SharedFrom(a, b, n)]
    ensures SharedFrom(a, b, n) == |b| ==> OnlyZerosAdded(a, b)
    decreases |b| - n
  {
    if n < |b| && PaddedDigit(a, n) == b[n] {
      if n < |a| {
        assert Drop(a, n)[1..] == Drop(a, n + 1) && b[n..][1..] == b[n + 1..];
        DigitAfterShared(a, b, n + 1);
      } else {
        ZerosThenLarger(a, b, n + 1);
      }
    }
  }

  lemma {:induction false} ZerosThenLarger(a: Key, b: Key, n: nat)
    requires |a| < n <= |b| && Digits(b)
    requires forall i :: 0 <= i < n ==> PaddedDigit(a, i) == b[i]
    ensures var m := SharedFrom(a, b, n); if m < |b| then '0' < b[m] else OnlyZerosAdded(a, b)
    decreases |b| - n
  {
    if n < |b| && PaddedDigit(a, n) == b[n] {
      ZerosThenLarger(a, b, n + 1);
    }
  }

  /** `Between` lands above its lower end exactly when it does not give up. */
  lemma {:induction false} BetweenIsAbove(a: Option<Key>, b: Option<Key>)
    requires Digits(a.UnwrapOr([])) && Digits(b.UnwrapOr([]))
    ensures Less(a.UnwrapOr([]), Between(a, b)) <==> !GivesUp(a.UnwrapOr([]), UpperEnd(a, b))
  {
    var lo := a.UnwrapOr([]);
    match UpperEnd(a, b)
    case None => AboveWithoutUpperEnd(lo, 0);
    case Some(hi) => AboveBelowUpperEnd(lo, hi);
  }

  lemma {:induction false} ExtensionIsAbove(a: Key, x: Key)
    requires x != []
    ensures Less(a, a + x)
  {
    assert a + [] == a;
    LessAfterPrefix(a, [], x);
  }

  lemma OneDigitOrder(a: Key, h: nat, b: Key)
    requires Digits(a) && Digits(b) && LowDigit(a) < h < HighDigit(Some(b)) && h < BASE
    ensures Less(a, [DigitChar(h)])
    ensures Less([DigitChar(h)], b) <==> b != []
  {
    DigitOrder(LowDigit(a), h);
    if b != [] { DigitOrder(h, Digit(b[0])); }
  }

  lemma FirstDigitOrder(a: Key, b: Key)
    requires |b| > 1 && PaddedDigit(a, 0) < b[0]
    ensures Less(a, b[..1]) && Less(b[..1], b)
  {
    ExtensionIsAbove(b[..1], b[1..]);
    assert b == b[..1] + b[1..];
  }

  /** One level of the recursion where the keys no longer agree. */
  lemma {:induction false} StepAfterShared(a: Key, b: Key, depth: nat)
    requires Digits(a) && Digits(b) && depth <= 1
    requires if b == [] then a == [] else PaddedDigit(a, 0) < b[0]
    ensures Less(a, Midpoint(a, Some(b), depth)) <==>
            !(|b| == 1 && a != [] && Digit(b[0]) == Digit(a[0]) + 1 && Exhausts(a[1..], MAX_DEPTH - depth))
    ensures Less(Midpoint(a, Some(b), depth), b) <==> b != []
  {
    var (da, db) := (LowDigit(a), HighDigit(Some(b)));
    if db > da + 1 {
      MidpointTakesDigit(a, Some(b), depth);
      OneDigitOrder(a, HalfUp(da, db), b);
    } else if |b| > 1 {
      MidpointTakesUpper(a, b, depth);
      FirstDigitOrder(a, b);
    } else {
      LastDigitStep(a, b, depth);
    }
  }

  /** The lower key's digit is one below the upper key's only digit: keep it
      and look above the rest. */
  lemma {:induction false} LastDigitStep(a: Key, b: Key, depth: nat)
    requires Digits(a) && Digits(b) && depth <= 1
    requires |b| == 1 && PaddedDigit(a, 0) < b[0]
    requires Digit(b[0]) == (if a == [] then 0 else Digit(a[0])) + 1
    ensures Less(a, Midpoint(a, Some(b), depth)) <==> !(a != [] && Exhausts(a[1..], MAX_DEPTH - depth))
    ensures Less(Midpoint(a, Some(b), depth), b)
  {
    var (t, c) := (Drop(a, 1), PaddedDigit(a, 0));
    var m := Midpoint(t, None, depth + 1);
    DigitInverse(c);
    MidpointKeepsDigit(a, Some(b), depth);
    AboveWithoutUpperEnd(t, depth + 1);
    if a != [] {
      assert a == [c] + t;
      LessAfterPrefix([c], t, m);
    }
  }

  /** Comparing a key that starts with the shared part with either end. */
  lemma {:induction false} JoinShared(a: Key, b: Key, m: Key)
    requires m != []
    ensures var n := Shared(a, b);
            && (Less(a, b[..n] + m) <==> n > |a| || Less(Drop(a, n), m))
            && (Less(b[..n] + m, b) <==> Less(m, b[n..]))
  {
    var n := Shared(a, b);
    assert b == b[..n] + b[n..];
    LessAfterPrefix(b[..n], m, b[n..]);
    if n <= |a| {
      assert a == b[..n] + Drop(a, n) by { assert forall i :: 0 <= i < n ==> PaddedDigit(a, i) == a[i]; }
      LessAfterPrefix(b[..n], Drop(a, n), m);
    } else {
      assert forall i :: 0 <= i < |a| ==> PaddedDigit(a, i) == a[i] == b[i];
      assert b[..n] + m == a + (b[|a|..n] + m);
      ExtensionIsAbove(a, b[|a|..n] + m);
    }
  }

  lemma MidpointSharesPrefix(a: Key, b: Key, depth: nat)
    requires depth <= MAX_DEPTH && Shared(a, b) > 0
    ensures var n := Shared(a, b);
            Midpoint(a, Some(b), depth) == b[..n] + Midpoint(Drop(a, n), Some(b[n..]), depth + 1)
  {}

  lemma {:induction false} MidpointIsNonempty(a: Key, b: Option<Key>, depth: nat)
    ensures Midpoint(a, b, depth) != []
    decreases MAX_DEPTH + 1 - depth
  {
    if depth <= MAX_DEPTH && b.Some? && Shared(a, b.value) > 0 {
      MidpointSharesPrefix(a, b.value, depth);
    }
  }

  lemma {:induction false} AboveBelowUpperEnd(a: Key, b: Key)
    requires Digits(a) && Digits(b) && Less(a, b)
    ensures Less(a, Midpoint(a, Some(b), 0)) <==> !GivesUp(a, Some(b))
    ensures Less(Midpoint(a, Some(b), 0), b) <==> !OnlyZerosAdded(a, b)
  {
    var n := Shared(a, b);
    assert Drop(a, 0) == a && b[0..] == b;
    DigitAfterShared(a, b, 0);
    if n == 0 {
      StepAfterShared(a, b, 0);
    } else {
      var (rest, top) := (Drop(a, n), b[n..]);
      var m := Midpoint(rest, Some(top), 1);
      MidpointSharesPrefix(a, b, 0);
      MidpointIsNonempty(rest, Some(top), 1);
      JoinShared(a, b, m);
      StepAfterShared(rest, top, 1);
      assert n < |a| ==> rest[1..] == a[n + 1..];
    }
  }

  /** The whole claim: strictly between two well-formed keys, unless it gives up. */
  lemma {:induction false} BetweenIsBetween(a: Option<Key>, b: Option<Key>)
    requires a.Some? ==> WellFormed(a.value)
    requires b.Some? ==> WellFormed(b.value)
    ensures WellFormed(Between(a, b))
    ensures Less(a.UnwrapOr([]), Between(a, b)) <==> !GivesUp(a.UnwrapOr([]), UpperEnd(a, b))
    ensures UpperEnd(a, b).Some? ==> Less(Between(a, b), UpperEnd(a, b).value)
  {
    BetweenIsAbove(a, b);
    MidpointIsWellFormed(a.UnwrapOr([]), UpperEnd(a, b), 0);
    if UpperEnd(a, b).Some? {
      AboveBelowUpperEnd(a.UnwrapOr([]), b.value);
      KeysNeverAddOnlyZeros(a.UnwrapOr([]), b.value);
    }
  }

  lemma KeysNeverAddOnlyZeros(a: Key, b: Key)
    requires WellFormed(b) && Less(a, b)
    ensures !OnlyZerosAdded(a, b)
  {
    LessIrreflexive(b);
    assert b[..|b|] == b;
  }

  lemma JoinIsWellFormed(p: Key, m: Key)
    requires Digits(p) && WellFormed(m)
    ensures WellFormed(p + m)
  {
    assert (p + m)[|p + m| - 1] == m[|m| - 1];
  }

  lemma SharedLeavesUpper(a: Key, b: Key)
    requires Digits(a) && WellFormed(b) && Less(a, b)
    ensures var n := Shared(a, b); n < |b| && WellFormed(b[n..]) && Less(Drop(a, n), b[n..])
  {
    assert Drop(a, 0) == a && b[0..] == b;
    DigitAfterShared(a, b, 0);
    KeysNeverAddOnlyZeros(a, b);
  }

  lemma {:induction false} MidpointIsWellFormed(a: Key, b: Option<Key>, depth: nat)
    requires Digits(a) && (b.Some? ==> WellFormed(b.value) && Less(a, b.value))
    ensures WellFormed(Midpoint(a, b, depth))
    decreases MAX_DEPTH + 1 - depth
  {
    if depth > MAX_DEPTH {
    } else if b.Some? && Shared(a, b.value) > 0 {
      var n := Shared(a, b.value);
      MidpointSharesPrefix(a, b.value, depth);
      SharedLeavesUpper(a, b.value);
      MidpointIsWellFormed(Drop(a, n), Some(b.value[n..]), depth + 1);
      JoinIsWellFormed(b.value[..n], Midpoint(Drop(a, n), Some(b.value[n..]), depth + 1));
    } else {
      OneStepIsWellFormed(a, b, depth);
    }
  }

  lemma {:induction false} OneStepIsWellFormed(a: Key, b: Option<Key>, depth: nat)
    requires Digits(a) && (b.Some? ==> WellFormed(b.value) && Less(a, b.value))
    requires depth <= MAX_DEPTH && !(b.Some? && Shared(a, b.value) > 0)
    ensures WellFormed(Midpoint(a, b, depth))
    decreases MAX_DEPTH + 1 - depth, 0
  {
    var (da, db) := (LowDigit(a), HighDigit(b));
    if db > da + 1 {
      MidpointTakesDigit(a, b, depth);
      DigitOrder(0, HalfUp(da, db));
    } else if b.Some? && |b.value| > 1 {
      MidpointTakesUpper(a, b.value, depth);
      assert PaddedDigit(a, 0) != b.value[0];
    } else {
      MidpointKeepsDigit(a, b, depth);
      MidpointIsWellFormed(Drop(a, 1), None, depth + 1);
      JoinIsWellFormed([DigitChar(da)], Midpoint(Drop(a, 1), None, depth + 1));
    }
  }

  /** A key of 129 top digits is as far as the top of a stack can be pushed. */
  lemma BetweenCanFail(a: Key)
    requires |a| == MAX_DEPTH + 2 && a[MAX_DEPTH + 1] == 'V'
    requires forall i :: 0 <= i <= MAX_DEPTH ==> a[i] == 'z'
    ensures WellFormed(a) && !Less(a, Between(Some(a), None))
  {
    assert a[MAX_DEPTH + 1..] == ['V'] == MIDDLE;
    LessIrreflexive(MIDDLE);
    BetweenIsAbove(Some(a), None);
  }

  // ---------------------------------------------------------------- growth

  lemma {:induction false} MidpointIsDigits(a: Key, b: Option<Key>, depth: nat)
    requires Digits(a) && (b.Some? ==> Digits(b.value))
    ensures Digits(Midpoint(a, b, depth))
    decreases MAX_DEPTH + 1 - depth
  {
    if depth > MAX_DEPTH {
    } else if b.Some? && Shared(a, b.value) > 0 {
      var n := Shared(a, b.value);
      MidpointSharesPrefix(a, b.value, depth);
      MidpointIsDigits(Drop(a, n), Some(b.value[n..]), depth + 1);
    } else if HighDigit(b) > LowDigit(a) + 1 {
      MidpointTakesDigit(a, b, depth);
    } else if b.Some? && |b.value| > 1 {
      MidpointTakesUpper(a, b.value, depth);
    } else {
      MidpointKeepsDigit(a, b, depth);
      MidpointIsDigits(Drop(a, 1), None, depth + 1);
    }
  }

  /** A new key is at most one digit longer than the longer neighbour. */
  lemma {:induction false} MidpointLength(a: Key, b: Option<Key>, depth: nat)
    ensures |Midpoint(a, b, depth)| <= MaxNat(|a|, |b.UnwrapOr([])|) + 1
    decreases MAX_DEPTH + 1 - depth
  {
    if depth <= MAX_DEPTH {
      if b.Some? && Shared(a, b.value) > 0 {
        var n := Shared(a, b.value);
        MidpointLength(Drop(a, n), Some(b.value[n..]), depth + 1);
      } else {
        MidpointLength(Drop(a, 1), None, depth + 1);
      }
    }
  }

  /** Short keys never make `Between` give up. */
  lemma ShortKeysNeverGiveUp(a: Key, b: Option<Key>)
    requires |a| < MAX_DEPTH
    ensures !GivesUp(a, b)
  {}

  // ---------------------------------------------------------------- spread

  function Step(n: nat): (step: nat)
    ensures step >= 1
  {
    if SPAN / (n + 1) > 1 then SPAN / (n + 1) else 1
  }

  function SpreadValue(n: nat, k: nat): (v: nat)
    requires 1 <= k <= n
    ensures v < SPAN && v % BASE != 0
  {
    var v := MinNat(k * Step(n), SPAN - 1);
    if v % BASE == 0 then v + 1 else v
  }

  function Capacity(digits: nat): nat {
    if digits == 0 then 1 else BASE * Capacity(digits - 1)
  }

  /** A number written with a fixed count of digits. */
  function Numeral(v: nat, digits: nat): (k: Key)
    ensures |k| == digits
  {
    if digits == 0 then [] else Numeral(v / BASE, digits - 1) + [DigitChar(v % BASE)]
  }

  function FourDigits(v: nat): Key {
    Numeral(v, 4)
  }

  method Spread(n: nat) returns (keys: seq<Key>)
    ensures |keys| == n
    ensures forall k :: 1 <= k <= n ==> keys[k - 1] == FourDigits(SpreadValue(n, k))
  {
    keys := [];
    for k := 1 to n + 1
      invariant |keys| == k - 1
      invariant forall j :: 1 <= j < k ==> keys[j - 1] == FourDigits(SpreadValue(n, j))
    {
      var v := MinNat(k * Step(n), SPAN - 1);
      if v % BASE == 0 {
        v := v + 1;
      }
      keys := keys + [FourDigits(v)];
    }
  }

  lemma {:induction false} LessExtended(a: Key, b: Key, x: Key, y: Key)
    requires |a| == |b| && Less(a, b)
    ensures Less(a + x, b + y)
  {
    assert (a + x)[1..] == a[1..] + x && (b + y)[1..] == b[1..] + y;
    if a[0] == b[0] { LessExtended(a[1..], b[1..], x, y); }
  }

  /** Fixed-width numerals sort as their values do. */
  lemma {:induction false} NumeralOrder(v: nat, w: nat, digits: nat)
    requires v < w < Capacity(digits)
    ensures Less(Numeral(v, digits), Numeral(w, digits))
  {
    var (a, b) := (v / BASE, w / BASE);
    DigitOrder(v % BASE, w % BASE);
    if a == b {
      LessAfterPrefix(Numeral(a, digits - 1), [DigitChar(v % BASE)], [DigitChar(w % BASE)]);
    } else {
      NumeralOrder(a, b, digits - 1);
      LessExtended(Numeral(a, digits - 1), Numeral(b, digits - 1), [DigitChar(v % BASE)], [DigitChar(w % BASE)]);
    }
  }

  lemma {:induction false} NumeralIsDigits(v: nat, digits: nat)
    ensures Digits(Numeral(v, digits))
  {
    if digits > 0 { NumeralIsDigits(v / BASE, digits - 1); }
  }

  /** Neighbouring values differ whenever the step leaves room to skip a
      multiple of the base. */
  lemma SpreadValueGrows(n: nat, j: nat, k: nat)
    requires 1 <= j < k <= n && 2 * (n + 1) <= SPAN
    ensures SpreadValue(n, j) < SpreadValue(n, k)
  {
    var s := Step(n);
    StepFits(n, s);
    MultiplesApart(j, k, s);
    MultiplesApart(k, n + 1, s);
  }

  lemma StepFits(n: nat, s: nat)
    requires s == Step(n) && 2 * (n + 1) <= SPAN
    ensures s >= 2 && (n + 1) * s <= SPAN
  {
    var q := SPAN / (n + 1);
    assert q * (n + 1) <= SPAN < (q + 1) * (n + 1);
    assert q <= 1 ==> (q + 1) * (n + 1) <= 2 * (n + 1);
  }

  lemma MultiplesApart(j: nat, k: nat, s: nat)
    requires j < k
    ensures j * s + s <= k * s
  {
    assert k * s == j * s + s + (k - j - 1) * s;
  }

  /** With steps of one, the value skipped for its last digit is taken twice. */
  lemma CrowdedSpreadRepeats(n: nat)
    requires 2 * (n + 1) > SPAN
    ensures n >= 63 && SpreadValue(n, 62) == SpreadValue(n, 63)
  {
    assert Step(n) == 1;
    assert SpreadValue(n, 62) == 63 && SpreadValue(n, 63) == 63;
  }

  ghost predicate Increasing(keys: seq<Key>) {
    forall i, j :: 0 <= i < j < |keys| ==> Less(keys[i], keys[j])
  }

  ghost predicate SpreadOf(keys: seq<Key>, n: nat) {
    |keys| == n && forall k :: 1 <= k <= n ==> keys[k - 1] == FourDigits(SpreadValue(n, k))
  }

  /** The opening positions of a stack are usable, and in stack order exactly
      when the stack takes at most half of the four-digit keys. */
  lemma SpreadIsIncreasing(keys: seq<Key>, n: nat)
    requires SpreadOf(keys, n)
    ensures forall i :: 0 <= i < n ==> WellFormed(keys[i])
    ensures Increasing(keys) <==> 2 * (n + 1) <= SPAN
  {
    forall i | 0 <= i < n
      ensures WellFormed(keys[i])
    {
      var v := SpreadValue(n, i + 1);
      DigitOrder(0, v % BASE);
      NumeralIsDigits(v, 4);
      assert keys[(i + 1) - 1] == FourDigits(v);
    }
    if 2 * (n + 1) <= SPAN {
      forall i, j | 0 <= i < j < n
        ensures Less(keys[i], keys[j])
      {
        SpreadValueGrows(n, i + 1, j + 1);
        NumeralOrder(SpreadValue(n, i + 1), SpreadValue(n, j + 1), 4);
        assert keys[(i + 1) - 1] == FourDigits(SpreadValue(n, i + 1));
        assert keys[(j + 1) - 1] == FourDigits(SpreadValue(n, j + 1));
      }
    } else {
      CrowdedSpreadRepeats(n);
      assert keys[62 - 1] == keys[63 - 1];
      LessIrreflexive(keys[61]);
    }
  }
}

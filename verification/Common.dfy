/** What several models share. */
module Wrappers {

  datatype Option<T> = None | Some(value: T)
}

module Arithmetic {

  const TWO31 := 0x8000_0000
  const TWO32 := 0x1_0000_0000

  function Min(a: nat, b: nat): nat {
    if a < b then a else b
  }

  // The signed 32-bit value that x is cut to.
  function ToInt32(x: int): (r: int)
    ensures -TWO31 <= r < TWO31
  {
    if x % TWO32 < TWO31 then x % TWO32 else x % TWO32 - TWO32
  }

  lemma Distribute(a: int, b: int, c: int)
    ensures (a + b) * c == a * c + b * c
  {
  }

  lemma Commute(a: int, b: int)
    ensures a * b == b * a
  {
  }

  lemma Euclid(k: nat, d: nat)
    requires d > 0
    ensures k == k / d * d + k % d && k % d < d
  {
  }

  lemma MulMono(a: int, b: int, c: nat)
    requires a <= b
    ensures a * c <= b * c
  {
  }

  lemma LessFactor(a: int, b: int, c: nat)
    ensures a * c < b * c ==> a < b
  {
    if a >= b {
      MulMono(b, a, c);
    }
  }
}

module Sequences {

  predicate Distinct(s: seq<nat>) {
    forall i, j :: 0 <= i < j < |s| ==> s[i] != s[j]
  }

  lemma Regroup<T>(a: seq<T>, b: seq<T>, c: seq<T>)
    ensures a + b + c == a + (b + c)
  {
  }

  lemma Beginning<T>(a: seq<T>, b: seq<T>, n: nat)
    requires n <= |b|
    ensures a + b[..n] <= a + b && a + b[..n] + b[n..] == a + b
  {
  }
}

/** What pcm_read of the kernel answers, call by call. */
module PcmReads {

  datatype Reply = Period(data: seq<int>) | Error(code: int)

  predicate AllPeriods(answers: nat -> Reply, lo: nat, hi: nat) {
    forall k :: lo <= k < hi ==> answers(k).Period?
  }

  lemma PeriodsJoin(answers: nat -> Reply, lo: nat, mid: nat, hi: nat)
    requires AllPeriods(answers, lo, mid) && AllPeriods(answers, mid, hi)
    ensures AllPeriods(answers, lo, hi)
  {
  }
}

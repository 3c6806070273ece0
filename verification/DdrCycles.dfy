// Translation between system and memory cycles.
module DdrCycles {
  import opened Arithmetic

  function SysToMem(sysCycle: nat, sysFreq: nat, memFreq: nat): nat
    requires sysFreq > 0
  {
    sysCycle * memFreq / sysFreq + 1
  }

  // A system cycle that should translate back to memCycle.
  function MatchingMemToSys(memCycle: nat, sysFreq: nat, memFreq: nat): nat
    requires memCycle >= 1 && memFreq > 0
  {
    (2 * memCycle - 1) * sysFreq / memFreq / 2
  }

  function MemToSys(memCycle: nat, sysFreq: nat, memFreq: nat): nat
    requires memFreq > 0
  {
    (memCycle + 1) * sysFreq / memFreq
  }

  // A response in a memory cycle that has come is not in a past system cycle.
  lemma ResponseNotEarly(m: nat, now: nat, sysFreq: nat, memFreq: nat)
    requires 0 < memFreq && 0 < sysFreq && m >= SysToMem(now, sysFreq, memFreq)
    ensures MemToSys(m, sysFreq, memFreq) >= now
  {
    var x := now * memFreq;
    LaterCycle(x, m, sysFreq);
    DivMonotone(x, (m + 1) * sysFreq, memFreq);
    DivUnique(x, memFreq, now);
  }

  lemma LaterCycle(x: nat, m: nat, f: nat)
    requires f > 0 && m > x / f
    ensures x <= (m + 1) * f
  {
    DivBounds(x, f);
    var q := x / f;
    MulMono(f, q + 1, m + 1);
    assert (q + 1) * f == q * f + f;
  }

  // q is the translated cycle: 2 * memFreq * q is within 2 * memFreq below (2m - 1) * sysFreq.
  lemma MatchingBounds(m: nat, sysFreq: nat, memFreq: nat)
    requires m >= 1 && memFreq > 0
    ensures var q := MatchingMemToSys(m, sysFreq, memFreq);
            2 * (q * memFreq) <= (2 * m - 1) * sysFreq < 2 * (q * memFreq) + 2 * memFreq
  {
    HalfDiv((2 * m - 1) * sysFreq, memFreq);
  }

  lemma HalfDiv(x: nat, f: nat)
    requires f > 0
    ensures 2 * (x / f / 2 * f) <= x < 2 * (x / f / 2 * f) + 2 * f
  {
    var y := x / f;
    var q := y / 2;
    DivBounds(x, f);
    var r := y - 2 * q;
    assert y * f == 2 * (q * f) + r * f;
    assert r == 0 || r == 1;
  }

  // The round trip works for every memory cycle when memory runs at most at half the system
  // frequency; the constructor demands slightly more.
  lemma RoundTrip(m: nat, sysFreq: nat, memFreq: nat)
    requires m >= 1 && 0 < memFreq && 2 * memFreq <= sysFreq
    ensures SysToMem(MatchingMemToSys(m, sysFreq, memFreq), sysFreq, memFreq) == m
  {
    MatchingBounds(m, sysFreq, memFreq);
    var q := MatchingMemToSys(m, sysFreq, memFreq);
    assert (2 * m - 1) * sysFreq == 2 * ((m - 1) * sysFreq) + sysFreq;
    assert (m - 1) * sysFreq <= q * memFreq < (m - 1) * sysFreq + sysFreq;
    DivUnique(q * memFreq, sysFreq, m - 1);
  }

  // Without that demand it can fail.
  lemma RoundTripCanFail()
    ensures SysToMem(MatchingMemToSys(2, 6, 5), 6, 5) == 1
  {
  }

  lemma SysToMemMonotone(a: nat, b: nat, sysFreq: nat, memFreq: nat)
    requires sysFreq > 0 && a <= b
    ensures SysToMem(a, sysFreq, memFreq) <= SysToMem(b, sysFreq, memFreq)
  {
    assert a * memFreq <= b * memFreq;
    DivMonotone(a * memFreq, b * memFreq, sysFreq);
  }

  // A wake-up queued for memory cycle m, but not before the present system cycle, arrives in
  // memory cycle m, provided m has not passed yet.
  lemma WakeUpExact(m: nat, now: nat, sysFreq: nat, memFreq: nat)
    requires m >= 1 && 0 < memFreq && 2 * memFreq <= sysFreq && SysToMem(now, sysFreq, memFreq) <= m
    ensures var s := MatchingMemToSys(m, sysFreq, memFreq);
            SysToMem(if s > now then s else now, sysFreq, memFreq) == m
  {
    RoundTrip(m, sysFreq, memFreq);
    var s := MatchingMemToSys(m, sysFreq, memFreq);
    if s <= now { SysToMemMonotone(s, now, sysFreq, memFreq); }
  }

  // An interval of n memory cycles, translated to system cycles once, spans at least n memory cycles wherever it
  // starts.
  lemma IntervalApart(at: nat, n: nat, sysFreq: nat, memFreq: nat)
    requires 0 < memFreq <= sysFreq
    ensures SysToMem(at + MemToSys(n, sysFreq, memFreq), sysFreq, memFreq) >= SysToMem(at, sysFreq, memFreq) + n
  {
    var d, x := MemToSys(n, sysFreq, memFreq), at * memFreq;
    DivBounds((n + 1) * sysFreq, memFreq);
    assert (n + 1) * sysFreq == n * sysFreq + sysFreq;
    assert (at + d) * memFreq == x + d * memFreq;
    DivMonotone(x + n * sysFreq, (at + d) * memFreq, sysFreq);
    DivBounds(x, sysFreq);
    var q := x / sysFreq;
    assert (q + n) * sysFreq == q * sysFreq + n * sysFreq;
    DivUnique(x + n * sysFreq, sysFreq, q + n);
  }
}

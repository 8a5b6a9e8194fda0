// Deadlines: adding a timeout to a clock reading, and the waits of call1 with
// their doubling timeouts.
module Timing {

  const SECOND: int := 1_000_000_000
  const MILLISECOND: int := 1_000_000
  const TO_MIN: int := 1000

  datatype Timespec = Timespec(sec: int, nsec: int)

  function Total(t: Timespec): int {
    t.sec * SECOND + t.nsec
  }

  // A clock reading.
  predicate IsReading(t: Timespec) {
    t.sec > 0 && 0 <= t.nsec < SECOND
  }

  // The code's loop runs while nsec exceeds a second, so a full second may stay.
  predicate Loose(t: Timespec) {
    0 <= t.nsec <= SECOND
  }

  method AddTimespec(a: Timespec, b: nat) returns (result: Timespec)
    requires 0 <= a.nsec < SECOND
    ensures result == Add(a, b)
  {
    var sec, nsec := a.sec + b / 1000, a.nsec + b % 1000 * MILLISECOND;
    while nsec > SECOND
      invariant 0 <= nsec < 2 * SECOND
      invariant nsec > SECOND ==> sec == a.sec + b / 1000 && nsec == a.nsec + b % 1000 * MILLISECOND
      invariant nsec <= SECOND ==> Timespec(sec, nsec) == Add(a, b)
      decreases nsec
    {
      sec, nsec := sec + 1, nsec - SECOND;
    }
    result := Timespec(sec, nsec);
  }

  // The sum in closed form.
  function Add(a: Timespec, b: nat): Timespec {
    var nsec := a.nsec + b % 1000 * MILLISECOND;
    if nsec > SECOND then Timespec(a.sec + b / 1000 + 1, nsec - SECOND) else Timespec(a.sec + b / 1000, nsec)
  }

  // Time is never lost, and the sum is normalised unless the parts of a second add
  // up to exactly one; then nsec is a full second, which no wait accepts.
  lemma AddIsExact(a: Timespec, b: nat)
    requires 0 <= a.nsec < SECOND
    ensures Total(Add(a, b)) == Total(a) + b * MILLISECOND && Loose(Add(a, b))
    ensures Add(a, b).nsec < SECOND <==> a.nsec + b % 1000 * MILLISECOND != SECOND
  {
    assert b == b / 1000 * 1000 + b % 1000;
  }

  function Cmp(a: Timespec, b: Timespec): int {
    if a.sec > b.sec then 1
    else if a.sec < b.sec then -1
    else if a.nsec > b.nsec then 1
    else if a.nsec < b.nsec then -1
    else 0
  }

  // The comparison orders times rightly; it can only tell apart two forms of the
  // same time, one with a full second in nsec.
  lemma CmpOrders(a: Timespec, b: Timespec)
    requires Loose(a) && Loose(b)
    ensures Total(a) < Total(b) ==> Cmp(a, b) < 0
    ensures Total(a) > Total(b) ==> Cmp(a, b) > 0
    ensures Total(a) == Total(b) ==> (Cmp(a, b) == 0 <==> a == b)
    ensures Total(a) == Total(b) && a != b ==> a.nsec == SECOND || b.nsec == SECOND
  {
  }

  function Pow2(k: nat): (r: nat)
    ensures r > 0
  {
    if k == 0 then 1 else 2 * Pow2(k - 1)
  }

  // The deadline of round k when the clock then reads now.
  function Deadline(now: Timespec, k: nat, final: Timespec): Timespec {
    var next := Add(now, TO_MIN * Pow2(k));
    if Cmp(next, final) > 0 then final else next
  }

  predicate IsLast(now: Timespec, k: nat, final: Timespec) {
    Cmp(Add(now, TO_MIN * Pow2(k)), final) > 0
  }

  // No wait that goes on to another round ends before its deadline, and the clock
  // does not run backwards.
  ghost predicate WaitsFully(clock: nat -> Timespec, final: Timespec) {
    forall k: nat :: WaitsRound(clock, k, final)
  }

  ghost predicate WaitsRound(clock: nat -> Timespec, k: nat, final: Timespec) {
    IsReading(clock(k)) && Total(clock(k + 1)) >= Total(Deadline(clock(k), k, final))
  }

  // By the start of round k the earlier timeouts, 1, 2, 4... seconds, are over.
  ghost predicate Late(begin: Timespec, k: nat, now: Timespec) {
    Total(now) >= Total(begin) + TO_MIN * (Pow2(k) - 1) * MILLISECOND
  }

  // Timeouts of k rounds, 1 + 2 + 4 + ... seconds, are no more than to.
  ghost predicate Fits(k: nat, to: nat) {
    TO_MIN * (Pow2(k) - 1) <= to
  }

  lemma {:induction false} Pow2Grows(k: nat)
    ensures Pow2(k) > k
  {
    if k > 0 {
      Pow2Grows(k - 1);
    }
  }

  // How round k stands at its start: the previous one was the last, or there is
  // time left.
  ghost predicate Standing(begin: Timespec, to: nat, k: nat, clock: nat -> Timespec, over: bool) {
    if over then k > 0 else Late(begin, k, clock(k)) && Fits(k, to) && k <= to
  }

  lemma RoundStands(begin: Timespec, to: nat, k: nat, clock: nat -> Timespec)
    requires IsReading(begin) && WaitsRound(clock, k, Add(begin, to)) && Standing(begin, to, k, clock, false)
    ensures DoublingWait(Total(Deadline(clock(k), k, Add(begin, to))), Total(clock(k)), k, Total(begin), to)
    ensures var over := IsLast(clock(k), k, Add(begin, to));
            Standing(begin, to, k + 1, clock, over) && (!over ==> k < to)
  {
    RoundFits(begin, to, k, clock(k), clock(k + 1));
  }

  // A round that is not the last ends within the timeout of the call.
  lemma RoundFits(begin: Timespec, to: nat, k: nat, now: Timespec, after: Timespec)
    requires IsReading(begin) && IsReading(now) && Late(begin, k, now)
    requires Total(after) >= Total(Deadline(now, k, Add(begin, to)))
    ensures DoublingWait(Total(Deadline(now, k, Add(begin, to))), Total(now), k, Total(begin), to)
    ensures IsLast(now, k, Add(begin, to)) ==>
            Total(Deadline(now, k, Add(begin, to))) == Total(begin) + to * MILLISECOND
    ensures !IsLast(now, k, Add(begin, to)) ==> Late(begin, k + 1, after) && Fits(k + 1, to) && k < to
  {
    Pow2Grows(k + 1);
    AddIsExact(begin, to);
    AddIsExact(now, TO_MIN * Pow2(k));
    CmpOrders(Add(now, TO_MIN * Pow2(k)), Add(begin, to));
  }

  method NextDeadline(now: Timespec, currTo: nat, final: Timespec, ghost k: nat)
    returns (next: Timespec, last: bool)
    requires 0 <= now.nsec < SECOND && currTo == TO_MIN * Pow2(k)
    ensures next == Deadline(now, k, final) && (last <==> IsLast(now, k, final))
  {
    next := AddTimespec(now, currTo);
    last := Cmp(next, final) > 0;
    if last {
      next := final;
    }
  }

  // Every round waited as it should and not past the final deadline.
  ghost predicate InTime(deadlines: seq<Timespec>, clock: nat -> Timespec, begin: Timespec, to: nat) {
    forall k {:trigger deadlines[k]} | 0 <= k < |deadlines| :: RoundInTime(deadlines[k], clock(k), k, begin, to)
  }

  ghost predicate RoundInTime(next: Timespec, now: Timespec, k: nat, begin: Timespec, to: nat) {
    next == Deadline(now, k, Add(begin, to)) && DoublingWait(Total(next), Total(now), k, Total(begin), to)
  }

  // Round k waits 1000, 2000, 4000... milliseconds from its start on, but not past
  // the timeout of the call.  All in nanoseconds.
  predicate DoublingWait(next: int, now: int, k: nat, begin: int, to: nat) {
    next == if now + 1000 * Pow2(k) * 1_000_000 < begin + to * 1_000_000
            then now + 1000 * Pow2(k) * 1_000_000 else begin + to * 1_000_000
  }

  lemma Doubling(k: nat)
    ensures Pow2(0) == 1 && Pow2(1) == 2 && Pow2(2) == 4 && Pow2(k + 1) == 2 * Pow2(k)
  {
  }

  // The last round, of which there is one, ends with the timeout of the call.
  ghost predicate Ended(deadlines: seq<Timespec>, clock: nat -> Timespec, begin: Timespec, to: nat) {
    && deadlines != []
    && forall k {:trigger deadlines[k]} | k == |deadlines| - 1 :: EndsCall(deadlines[k], clock(k), k, begin, to)
  }

  ghost predicate EndsCall(next: Timespec, now: Timespec, k: nat, begin: Timespec, to: nat) {
    IsLast(now, k, Add(begin, to)) && Total(next) == Total(begin) + to * 1_000_000
  }

  // Kept apart so that the loop below need not look into the rounds before.
  lemma InTimeWith(deadlines: seq<Timespec>, next: Timespec, clock: nat -> Timespec, begin: Timespec, to: nat)
    requires InTime(deadlines, clock, begin, to)
    requires next == Deadline(clock(|deadlines|), |deadlines|, Add(begin, to))
    requires DoublingWait(Total(next), Total(clock(|deadlines|)), |deadlines|, Total(begin), to)
    ensures InTime(deadlines + [next], clock, begin, to)
    ensures EndsCall(next, clock(|deadlines|), |deadlines|, begin, to) ==> Ended(deadlines + [next], clock, begin, to)
  {
    forall k | 0 <= k < |deadlines| ensures RoundInTime(deadlines[k], clock(k), k, begin, to) {}
  }

  // One round, up to its wait.
  method Round(ghost begin: Timespec, ghost to: nat, clock: nat -> Timespec, k: nat, currTo: nat, final: Timespec)
    returns (next: Timespec, last: bool)
    requires IsReading(begin) && final == Add(begin, to) && currTo == TO_MIN * Pow2(k)
    requires WaitsRound(clock, k, final) && Standing(begin, to, k, clock, false)
    ensures next == Deadline(clock(k), k, final)
    ensures DoublingWait(Total(next), Total(clock(k)), k, Total(begin), to)
    ensures last ==> EndsCall(next, clock(k), k, begin, to)
    ensures Standing(begin, to, k + 1, clock, last) && (!last ==> k < to)
  {
    RoundStands(begin, to, k, clock);
    next, last := NextDeadline(clock(k), currTo, final, k);
  }

  // The waits of call1.  begin is the time of the call, clock(k) that at the start
  // of round k, and replied(k) says whether the reply had come when it ended.
  method Waits(begin: Timespec, to: nat, clock: nat -> Timespec, replied: nat -> bool)
    returns (deadlines: seq<Timespec>)
    requires IsReading(begin) && Total(clock(0)) >= Total(begin)
    requires WaitsFully(clock, Add(begin, to))
    ensures |deadlines| > 0 && InTime(deadlines, clock, begin, to)
    ensures Fits(|deadlines| - 1, to)
    ensures forall k | 0 <= k < |deadlines| - 1 :: !replied(k)
    ensures replied(|deadlines| - 1) || Ended(deadlines, clock, begin, to)
  {
    var final := AddTimespec(begin, to);
    var finalSec, currTo, i: nat := final.sec, TO_MIN, 0;
    deadlines := [];
    while true
      invariant i == |deadlines| && currTo == TO_MIN * Pow2(i)
      invariant InTime(deadlines, clock, begin, to)
      invariant forall k | 0 <= k < i :: !replied(k)
      invariant i > 0 ==> Fits(i - 1, to)
      invariant finalSec == 0 ==> Ended(deadlines, clock, begin, to)
      invariant Standing(begin, to, i, clock, finalSec == 0)
      decreases if finalSec != 0 then 1 else 0, to - i
    {
      if finalSec == 0 {
        break;
      }
      assert WaitsRound(clock, i, final);
      var next, last := Round(begin, to, clock, i, currTo, final);
      if last {
        finalSec := 0;
      }
      InTimeWith(deadlines, next, clock, begin, to);
      deadlines := deadlines + [next];
      i := i + 1;
      if replied(i - 1) {
        break;
      }
      currTo := currTo * 2;
    }
  }
}

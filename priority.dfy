/** Priority arithmetic of PingPongOS, identical in both kernel versions:
    lower numbers are more urgent, the valid range is PRIO_MAX (-20, most
    urgent) to PRIO_MIN (20, least urgent), and aging moves a waiting task's
    dynamic priority by ALPHA (-1) per scheduling decision. */
module Priority {

  const PRIO_MAX: int := -20
  const PRIO_MIN: int := 20
  const ALPHA: int := -1
  const STANDARD_PRIO: int := 0

  predicate InRange(p: int) {
    PRIO_MAX <= p <= PRIO_MIN
  }

  /** The clamping done by task_setprio and task_set_dinamic_prio: values
      above PRIO_MIN become PRIO_MIN, values below PRIO_MAX become PRIO_MAX. */
  function Clamp(p: int): (r: int)
    ensures InRange(r)
    ensures InRange(p) ==> r == p
    ensures forall v :: InRange(v) ==> Dist(r, p) <= Dist(v, p)
  {
    if p > PRIO_MIN then PRIO_MIN
    else if p < PRIO_MAX then PRIO_MAX
    else p
  }

  /** The clamping statements as the kernel's priority setters write them. */
  method ClampPrio(prio: int) returns (p: int)
    ensures p == Clamp(prio)
  {
    p := prio;
    if p > PRIO_MIN {
      p := PRIO_MIN;
    } else if p < PRIO_MAX {
      p := PRIO_MAX;
    }
  }

  function Dist(a: int, b: int): nat {
    if a <= b then b - a else a - b
  }

  /** The `between(A,B,C)` macro, transcribed branch for branch. */
  function Between(a: int, b: int, c: int): bool {
    if a - c > 0 then a > b && b > b
    else if a == c then a == b && b == c
    else a < b && b < c
  }

  /** With the kernel's constants the macro is the open interval
      (PRIO_MAX, PRIO_MIN): both end points are excluded. */
  lemma BetweenIsOpenRange(p: int)
    ensures Between(PRIO_MAX, p, PRIO_MIN) <==> PRIO_MAX < p < PRIO_MIN
  {
  }

  /** task_alpha_dinamic_prio: old dynamic priority plus alpha, clamped.
      The sum is kept when it is in range and cut to the nearer end when
      it is not. */
  function AddAlpha(prioDinam: int, alpha: int): (r: int)
    ensures InRange(r)
    ensures InRange(prioDinam + alpha) ==> r == prioDinam + alpha
    ensures prioDinam + alpha > PRIO_MIN ==> r == PRIO_MIN
    ensures prioDinam + alpha < PRIO_MAX ==> r == PRIO_MAX
  {
    Clamp(prioDinam + alpha)
  }

  /** What task_get_old does to one passed-over task's dynamic priority. */
  function AgedPrio(prioDinam: int): (r: int)
    ensures PRIO_MAX < prioDinam < PRIO_MIN ==> r == prioDinam - 1
    ensures prioDinam <= PRIO_MAX || prioDinam >= PRIO_MIN ==> r == prioDinam
  {
    if Between(PRIO_MAX, prioDinam, PRIO_MIN) then AddAlpha(prioDinam, ALPHA) else prioDinam
  }

  /** The dynamic priority of a task passed over in k consecutive rounds. */
  function AgedTimes(prioDinam: int, k: nat): int {
    if k == 0 then prioDinam else AgedPrio(AgedTimes(prioDinam, k - 1))
  }

  /** Aging moves a passed-over task one step per round towards PRIO_MAX
      and stops there, except that a task sitting at PRIO_MIN is never aged. */
  lemma {:induction false} AgingTrajectory(prioDinam: int, k: nat)
    requires InRange(prioDinam)
    ensures AgedTimes(prioDinam, k) ==
      if prioDinam == PRIO_MIN then PRIO_MIN
      else if prioDinam - k < PRIO_MAX then PRIO_MAX
      else prioDinam - k
  {
    if k > 0 {
      AgingTrajectory(prioDinam, k - 1);
    }
  }

  /** Starvation bound: below PRIO_MIN, prioDinam - PRIO_MAX passed-over rounds
      bring a task to the most urgent value; at PRIO_MIN it stays there. */
  lemma ReachesMostUrgent(prioDinam: int)
    requires InRange(prioDinam)
    ensures prioDinam < PRIO_MIN ==> AgedTimes(prioDinam, prioDinam - PRIO_MAX) == PRIO_MAX
    ensures forall k: nat :: AgedTimes(PRIO_MIN, k) == PRIO_MIN
  {
    AgingTrajectory(prioDinam, prioDinam - PRIO_MAX);
    forall k: nat ensures AgedTimes(PRIO_MIN, k) == PRIO_MIN {
      AgingTrajectory(PRIO_MIN, k);
    }
  }
}

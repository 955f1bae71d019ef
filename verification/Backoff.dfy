/** The delays between recovery launches (crates/mpv-targetsd/src/supervisor.rs). */
module Backoff {

  const MAX_DELAY: nat := 30

  /** `next_recovery_delay`, in seconds. */
  function NextDelay(delay: nat): nat { if 2 * delay <= MAX_DELAY then 2 * delay else MAX_DELAY }

  /** The delay before attempt `n`, counting from 0. */
  function NthDelay(n: nat): nat { if n == 0 then 1 else NextDelay(NthDelay(n - 1)) }

  function TotalDelay(n: nat): nat { if n == 0 then 0 else TotalDelay(n - 1) + NthDelay(n - 1) }

  function PowerOfTwo(n: nat): (p: nat)
    ensures p >= 1
  {
    if n == 0 then 1 else 2 * PowerOfTwo(n - 1)
  }

  lemma {:induction false} PowerGrows(n: nat)
    requires n >= 5
    ensures PowerOfTwo(n) >= 32
  {
    if n == 5 {
      assert PowerOfTwo(1) == 2 && PowerOfTwo(2) == 4 && PowerOfTwo(3) == 8 && PowerOfTwo(4) == 16;
    } else {
      PowerGrows(n - 1);
    }
  }

  /** The delay doubles until it would pass half a minute and then stays there. */
  lemma {:induction false} DelayClosedForm(n: nat)
    ensures NthDelay(n) == if PowerOfTwo(n) <= MAX_DELAY then PowerOfTwo(n) else MAX_DELAY
    ensures n > 0 ==> NthDelay(n - 1) <= NthDelay(n)
  {
    if n > 0 {
      DelayClosedForm(n - 1);
    }
  }

  /** From the fifth attempt on, the time slept is 31 seconds and half a minute per further attempt. */
  lemma {:induction false} TotalClosedForm(n: nat)
    requires n >= 5
    ensures TotalDelay(n) == 31 + 30 * (n - 5)
  {
    if n == 5 {
      assert NthDelay(1) == 2 && NthDelay(2) == 4 && NthDelay(3) == 8 && NthDelay(4) == 16;
      assert TotalDelay(1) == 1 && TotalDelay(2) == 3 && TotalDelay(3) == 7 && TotalDelay(4) == 15;
    } else {
      TotalClosedForm(n - 1);
      DelayClosedForm(n - 1);
      PowerGrows(n - 1);
    }
  }
}

/** The damage counter of `ghost-agent-loop`: it only grows until the next session resets it. */
module DamageCounters {

  class DamageCounter {
    var count: nat
    const threshold: nat

    constructor (threshold: nat)
      ensures count == 0 && this.threshold == threshold
    {
      count := 0;
      this.threshold := threshold;
    }

    method Increment()
      modifies this`count
      ensures count == old(count) + 1
    {
      count := count + 1;
    }

    predicate IsHalted()
      reads this
    {
      count >= threshold
    }

    method Reset()
      modifies this`count
      ensures count == 0 && (!IsHalted() <==> threshold > 0)
    {
      count := 0;
    }
  }
}

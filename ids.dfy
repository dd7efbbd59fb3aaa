/**
 * `generateId` (imported by `useModalManager.ts` and `DelayerAccumulator.ts`)
 * is not part of this model. It stands in here as one counter that modal ids
 * and delayer ids are both drawn from; the only property used is that it
 * never hands out the same id twice.
 */
module Ids {

  class IdSource {
    /** Every id handed out so far is below `next`. */
    var next: int

    constructor (start: int)
      ensures next == start
    {
      next := start;
    }

    method Generate() returns (id: int)
      modifies this
      ensures id == old(next) && next == id + 1
    {
      id := next;
      next := next + 1;
    }
  }
}

/** The part of rxjs's `BehaviorSubject<number>` that the counter service
    relies on: it always holds a current value, and `next` replaces that value
    and broadcasts it to the subscribers. */
module Rx {

  class BehaviorSubject {
    /** The current value, the one a new subscriber receives first. */
    var value: int
    /** Every value broadcast through `next`, oldest first. */
    var pushed: seq<int>

    constructor (initial: int)
      ensures value == initial && pushed == []
    {
      value := initial;
      pushed := [];
    }

    method Next(x: int)
      modifies this
      ensures value == x
      ensures pushed == old(pushed) + [x]
    {
      value := x;
      pushed := pushed + [x];
    }
  }
}

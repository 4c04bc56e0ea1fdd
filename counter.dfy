/** The stand-alone counter component: a `count` that starts from the
    `startCount` input and every change of which is emitted on `countChange`. */
module Counter {
  import opened Wrappers

  class CounterComponent {
    /** The `@Input` the parent binds; `ngOnChanges` copies it into `count`. */
    var startCount: int
    var count: int
    /** Every value emitted on the `countChange` output, oldest first. */
    var emitted: seq<int>

    constructor ()
      ensures startCount == 0 && count == 0 && emitted == []
    {
      startCount := 0;
      count := 0;
      emitted := [];
    }

    /** Copies the input into the count; nothing is emitted. */
    method NgOnChanges()
      modifies this
      ensures count == old(startCount)
      ensures startCount == old(startCount) && emitted == old(emitted)
    {
      count := startCount;
    }

    method Increment()
      modifies this
      ensures count == old(count) + 1
      ensures emitted == old(emitted) + [count]
      ensures startCount == old(startCount)
    {
      count := count + 1;
      Notify();
    }

    method Decrement()
      modifies this
      ensures count == old(count) - 1
      ensures emitted == old(emitted) + [count]
      ensures startCount == old(startCount)
    {
      count := count - 1;
      Notify();
    }

    /** `input` is `None` when the entered value is `NaN`: then nothing happens. */
    method ResetCount(input: Option<int>)
      modifies this
      ensures input.Some? ==> count == input.value && emitted == old(emitted) + [input.value]
      ensures input.None? ==> count == old(count) && emitted == old(emitted)
      ensures startCount == old(startCount)
    {
      if input.Some? {
        count := input.value;
        Notify();
      }
    }

    /** Emits the count as it is at this moment. */
    method Notify()
      modifies this`emitted
      ensures emitted == old(emitted) + [count]
    {
      emitted := emitted + [count];
    }
  }

  /** An increment followed by a decrement restores the count, and the two
      emissions are the intermediate and the restored value. */
  method IncrementThenDecrement(c: CounterComponent)
    modifies c
    ensures c.count == old(c.count)
    ensures c.emitted == old(c.emitted) + [old(c.count) + 1, old(c.count)]
  {
    c.Increment();
    c.Decrement();
  }

  /** A fresh counter shows 1 after one increment and has emitted exactly 1. */
  method IncrementsFreshCounter() returns (shown: int, emitted: seq<int>)
    ensures shown == 1 && emitted == [1]
  {
    var c := new CounterComponent();
    c.Increment();
    shown, emitted := c.count, c.emitted;
  }

  /** A fresh counter shows -1 after one decrement and has emitted exactly -1. */
  method DecrementsFreshCounter() returns (shown: int, emitted: seq<int>)
    ensures shown == -1 && emitted == [-1]
  {
    var c := new CounterComponent();
    c.Decrement();
    shown, emitted := c.count, c.emitted;
  }

  /** Resetting a fresh counter to 123 shows and emits 123; resetting it with
      `NaN` keeps the start count and emits nothing. */
  method ResetsFreshCounter() returns (shown: int, emitted: seq<int>, shownAfterNaN: int, emittedAfterNaN: seq<int>)
    ensures shown == 123 && emitted == [123]
    ensures shownAfterNaN == 0 && emittedAfterNaN == []
  {
    var c := new CounterComponent();
    c.ResetCount(Some(123));
    shown, emitted := c.count, c.emitted;
    var d := new CounterComponent();
    d.ResetCount(None);
    shownAfterNaN, emittedAfterNaN := d.count, d.emitted;
  }

  /** Setting the input to 123 and running `ngOnChanges` shows 123. */
  method ShowsStartCount() returns (shown: int, emitted: seq<int>)
    ensures shown == 123 && emitted == []
  {
    var c := new CounterComponent();
    c.startCount := 123;
    c.NgOnChanges();
    shown, emitted := c.count, c.emitted;
  }
}

/** The shared counter service: a private `count` whose every change is
    pushed into a `BehaviorSubject`, the stream components observe. */
module Services {
  import opened Wrappers
  import Rx

  class CounterService {
    var count: int
    const subject: Rx.BehaviorSubject

    /** The subject's current value is the count. */
    ghost predicate Valid()
      reads this, subject
    {
      subject.value == count
    }

    constructor ()
      ensures Valid() && fresh(subject)
      ensures count == 0 && subject.value == 0 && subject.pushed == []
    {
      count := 0;
      subject := new Rx.BehaviorSubject(0);
    }

    /** The stream of counts. The read-only view `asObservable` gives of the
        subject is modelled by the subject itself; nothing changes. */
    method GetCount() returns (obs: Rx.BehaviorSubject)
      ensures obs == subject
    {
      obs := subject;
    }

    method Increment()
      modifies this, subject
      ensures Valid()
      ensures count == old(count) + 1
      ensures subject.pushed == old(subject.pushed) + [count]
    {
      count := count + 1;
      Notify();
    }

    method Decrement()
      modifies this, subject
      ensures Valid()
      ensures count == old(count) - 1
      ensures subject.pushed == old(subject.pushed) + [count]
    {
      count := count - 1;
      Notify();
    }

    /** `input` is `None` when it is `NaN`: then nothing changes and nothing is pushed. */
    method ResetCount(input: Option<int>)
      requires Valid()
      modifies this, subject
      ensures Valid()
      ensures input.Some? ==> count == input.value && subject.pushed == old(subject.pushed) + [input.value]
      ensures input.None? ==> count == old(count) && subject.pushed == old(subject.pushed)
    {
      if input.Some? {
        count := input.value;
        Notify();
      }
    }

    method Notify()
      modifies subject
      ensures Valid()
      ensures subject.pushed == old(subject.pushed) + [count]
    {
      subject.Next(count);
    }
  }
}

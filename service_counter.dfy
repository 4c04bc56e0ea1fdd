/** The counter component that keeps no count of its own: it observes the
    shared `CounterService` and forwards the buttons to it. */
module ServiceCounter {
  import opened Wrappers
  import Rx
  import Services

  class ServiceCounterComponent {
    const counterService: Services.CounterService
    /** `count$`, the stream the template renders. */
    const countStream: Rx.BehaviorSubject

    ghost predicate Valid()
      reads this, counterService, counterService.subject
    {
      countStream == counterService.subject && counterService.Valid()
    }

    /** Asks the service for its stream once. */
    constructor (service: Services.CounterService)
      requires service.Valid()
      ensures Valid()
      ensures counterService == service && countStream == service.subject
    {
      var obs := service.GetCount();
      counterService := service;
      countStream := obs;
    }

    /** The observed count rises by one. */
    method Increment()
      requires Valid()
      modifies counterService, counterService.subject
      ensures Valid()
      ensures counterService.count == old(counterService.count) + 1
      ensures countStream.value == old(countStream.value) + 1
      ensures countStream.pushed == old(countStream.pushed) + [countStream.value]
    {
      counterService.Increment();
    }

    /** The observed count falls by one. */
    method Decrement()
      requires Valid()
      modifies counterService, counterService.subject
      ensures Valid()
      ensures counterService.count == old(counterService.count) - 1
      ensures countStream.value == old(countStream.value) - 1
      ensures countStream.pushed == old(countStream.pushed) + [countStream.value]
    {
      counterService.Decrement();
    }

    /** A number is forwarded to the service unchanged; `NaN` (`None`)
        never reaches it, so the service is left as it was. */
    method ResetCount(newCount: Option<int>)
      requires Valid()
      modifies counterService, counterService.subject
      ensures Valid()
      ensures newCount.Some? ==> counterService.count == newCount.value
                                 && countStream.pushed == old(countStream.pushed) + [newCount.value]
      ensures newCount.None? ==> unchanged(counterService, counterService.subject)
    {
      if newCount.Some? {
        counterService.ResetCount(newCount);
      }
    }
  }

  /** Over a fresh service the component first shows 0, then 1 after an
      increment, -1 after two decrements, and 456 after a `NaN` reset (ignored)
      followed by a reset to 456. */
  method ObservesFreshService() returns (shown: int, afterIncrement: int, afterTwoDecrements: int, afterReset: int)
    ensures shown == 0 && afterIncrement == 1 && afterTwoDecrements == -1 && afterReset == 456
  {
    var service := new Services.CounterService();
    var component := new ServiceCounterComponent(service);
    shown := component.countStream.value;
    component.Increment();
    afterIncrement := component.countStream.value;
    component.Decrement();
    component.Decrement();
    afterTwoDecrements := component.countStream.value;
    component.ResetCount(None);
    component.ResetCount(Some(456));
    afterReset := component.countStream.value;
  }

  /** Two components built over one service observe the same count: a click
      on either is seen by both. */
  method ComponentsShareService() returns (first: int, second: int)
    ensures first == 1 && second == 1
  {
    var service := new Services.CounterService();
    var a := new ServiceCounterComponent(service);
    var b := new ServiceCounterComponent(service);
    a.Increment();
    first, second := a.countStream.value, b.countStream.value;
  }
}

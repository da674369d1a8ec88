/** The base of every discrete-time process (`sequential::discrete_process`):
 *  it counts the observations generated so far and passes each one, single
 *  or in a block, to the observers registered with it, in the order they
 *  were registered. Generating the values is the derived process's job
 *  (on_next); here the generated value or block is an argument. */
module DiscreteProcesses {

  /** A call a registered observer receives. */
  datatype Event<V> = Observed(value: V) | ObservedBlock(values: seq<V>) | WasReset

  /** An observer as the process sees it: observer.hpp is not part of this
   *  model, so an observer is the log of the calls it has received. */
  class Observer<V> {
    var log: seq<Event<V>>

    constructor ()
      ensures log == []
    {
      log := [];
    }

    /** observe(value). */
    method Observe(value: V)
      modifies this
      ensures log == old(log) + [Observed(value)]
    {
      log := log + [Observed(value)];
    }

    /** observe(values). */
    method ObserveBlock(values: seq<V>)
      modifies this
      ensures log == old(log) + [ObservedBlock(values)]
    {
      log := log + [ObservedBlock(values)];
    }

    /** reset(). */
    method Reset()
      modifies this
      ensures log == old(log) + [WasReset]
    {
      log := log + [WasReset];
    }
  }

  /** No observer appears twice in the list. */
  predicate Distinct<V>(s: seq<Observer<V>>)
  {
    forall i, j :: 0 <= i < j < |s| ==> s[i] != s[j]
  }

  /** Registering keeps the list free of repeats. */
  lemma AppendDistinct<V>(s: seq<Observer<V>>, o: Observer<V>)
    requires Distinct(s) && o !in s
    ensures Distinct(s + [o])
  {
    forall i, j | 0 <= i < j < |s + [o]|
      ensures (s + [o])[i] != (s + [o])[j]
    {
      if j == |s| {
        assert s[i] in s;
      }
    }
  }

  class DiscreteProcess<V> {
    var count: nat
    var observers: seq<Observer<V>>

    ghost predicate Valid()
      reads this
    {
      Distinct(observers)
    }

    constructor ()
      ensures count == 0 && observers == [] && Valid()
    {
      count := 0;
      observers := [];
    }

    /** try_register_observer(observer_ptr): a null pointer or an observer
     *  already in the list is refused and the list is left as it was;
     *  otherwise the observer goes to the end of the list. */
    method TryRegisterObserver(o: Observer?<V>) returns (ok: bool)
      requires Valid()
      modifies this
      ensures Valid() && count == old(count)
      ensures ok <==> o != null && o !in old(observers)
      ensures ok ==> observers == old(observers) + [o]
      ensures !ok ==> observers == old(observers)
    {
      if o == null {
        return false;
      }
      var k := 0;
      while k < |observers|
        invariant 0 <= k <= |observers|
        invariant o !in observers[..k]
      {
        if observers[k] == o {
          return false;
        }
        k := k + 1;
      }
      assert observers[..k] == observers;
      AppendDistinct(observers, o);
      observers := observers + [o];
      ok := true;
    }

    /** clear_observers(). */
    method ClearObservers()
      modifies this
      ensures observers == [] && count == old(count) && Valid()
    {
      observers := [];
    }

    /** clear(): the count goes back to 0 and every registered observer is
     *  reset once; the list of observers stays. */
    method Clear()
      requires Valid()
      modifies this, observers
      ensures Valid() && count == 0 && observers == old(observers)
      ensures forall i :: 0 <= i < |observers| ==> observers[i].log == old(observers[i].log) + [WasReset]
    {
      count := 0;
      var k := 0;
      while k < |observers|
        invariant 0 <= k <= |observers| && observers == old(observers) && count == 0
        invariant forall i :: 0 <= i < k ==> observers[i].log == old(observers[i].log) + [WasReset]
        invariant forall i :: k <= i < |observers| ==> observers[i].log == old(observers[i].log)
      {
        observers[k].Reset();
        k := k + 1;
      }
    }

    /** next(): the value the derived process generated is counted and passed
     *  to every registered observer exactly once, then returned. */
    method Next(generated: V) returns (result: V)
      requires Valid()
      modifies this, observers
      ensures result == generated
      ensures Valid() && count == old(count) + 1 && observers == old(observers)
      ensures forall i :: 0 <= i < |observers| ==> observers[i].log == old(observers[i].log) + [Observed(generated)]
    {
      result := generated;
      count := count + 1;
      var k := 0;
      while k < |observers|
        invariant 0 <= k <= |observers| && observers == old(observers) && count == old(count) + 1
        invariant forall i :: 0 <= i < k ==> observers[i].log == old(observers[i].log) + [Observed(generated)]
        invariant forall i :: k <= i < |observers| ==> observers[i].log == old(observers[i].log)
      {
        observers[k].Observe(result);
        k := k + 1;
      }
    }

    /** next(values): the block the derived process generated adds its size
     *  to the count and is passed to every registered observer exactly once. */
    method NextBlock(values: seq<V>)
      requires Valid()
      modifies this, observers
      ensures Valid() && count == old(count) + |values| && observers == old(observers)
      ensures forall i :: 0 <= i < |observers| ==> observers[i].log == old(observers[i].log) + [ObservedBlock(values)]
    {
      count := count + |values|;
      var k := 0;
      while k < |observers|
        invariant 0 <= k <= |observers| && observers == old(observers) && count == old(count) + |values|
        invariant forall i :: 0 <= i < k ==> observers[i].log == old(observers[i].log) + [ObservedBlock(values)]
        invariant forall i :: k <= i < |observers| ==> observers[i].log == old(observers[i].log)
      {
        observers[k].ObserveBlock(values);
        k := k + 1;
      }
    }
  }
}

/** The growable array of stable element pointers in ext/io/event/array.h: descriptors and completion slots are looked
    up by number, and other structures keep pointers to them. */
module EventArray {

  /** size_t arithmetic. */
  const SIZE_LIMIT: nat := 0x1_0000_0000_0000_0000

  const MAXIMUM_COUNT: nat := (SIZE_LIMIT - 1) / 8

  const DEFAULT_COUNT: nat := 128

  function Wrap(n: nat): nat {
    n % SIZE_LIMIT
  }

  /** An allocated element; its address is its identity. */
  class Element {
    constructor () {}
  }

  /** OutOfBounds: the source would reach beyond its allocation, which it does not check. */
  datatype Outcome<+T> = Done(value: T) | RangeError | OutOfBounds

  /** The elements numbered from `from` up to `to`. */
  ghost function Between(elements: map<nat, Element>, from: nat, to: nat): set<Element> {
    set i | i in elements && from <= i < to :: elements[i]
  }

  lemma BetweenStep(elements: map<nat, Element>, from: nat, i: nat)
    requires from <= i
    ensures Between(elements, from, i + 1) ==
            Between(elements, from, i) + if i in elements then {elements[i]} else {}
  {
  }

  class EventArray {
    var base: array?<Element?>
    var count: nat
    var limit: nat
    /** The elements given to element_free so far. */
    var freed: set<Element>

    /** Elements live below `limit`, which is within the allocation. */
    ghost predicate Valid()
      reads this, base
    {
      && count <= MAXIMUM_COUNT
      && (if base == null then count == 0 else base.Length == count && count > 0)
      && limit <= count
      && forall i | limit <= i < count :: base[i] == null
    }

    /** The partial map from number to element. */
    ghost function Elements(): map<nat, Element>
      reads this, base
      requires Valid()
    {
      map i: nat | i < count && base[i] != null :: base[i]
    }

    /** IO_Event_Array_initialize. */
    constructor (count: nat)
      requires count <= MAXIMUM_COUNT
      ensures Valid() && Elements() == map[] && this.count == count && limit == 0 && freed == {}
      ensures base != null ==> fresh(base)
    {
      this.count := count;
      limit, freed := 0, {};
      if count > 0 {
        base := new Element?[count](_ => null);
      } else {
        base := null;
      }
    }

    /** The capacity that IO_Event_Array_resize chooses: doubling, clamped to the maximum. */
    static method Grow(current: nat, request: nat) returns (capacity: nat)
      requires current < request <= MAXIMUM_COUNT
      ensures current < capacity <= MAXIMUM_COUNT
      ensures request <= capacity <==> current > 0 || request <= DEFAULT_COUNT
      ensures current > 0 ==> capacity < 2 * request
    {
      capacity := current;
      if capacity == 0 {
        capacity := DEFAULT_COUNT;
      } else {
        while capacity < request
          invariant current <= capacity <= MAXIMUM_COUNT
          invariant capacity > current ==> capacity < 2 * request
          decreases MAXIMUM_COUNT - capacity
        {
          if capacity > MAXIMUM_COUNT / 2 {
            capacity := MAXIMUM_COUNT;
            break;
          }
          capacity := Wrap(capacity * 2);
        }
      }
    }

    /** IO_Event_Array_resize: contents are kept and new slots are null. The request is met exactly when the array was
        not empty or the request is not above the default. */
    method Resize(request: nat) returns (outcome: Outcome<()>)
      requires Valid()
      modifies this`base, this`count
      ensures Valid() && Elements() == old(Elements()) && count >= old(count)
      ensures outcome.RangeError? <==> request > MAXIMUM_COUNT
      ensures !outcome.OutOfBounds?
      ensures outcome.RangeError? || request <= old(count) ==> base == old(base)
      ensures base != old(base) ==> base != null && fresh(base)
      ensures outcome.Done? ==> (request <= count <==> old(count) > 0 || request <= DEFAULT_COUNT)
      ensures old(count) > 0 && old(count) < request && outcome.Done? ==> count < 2 * request
    {
      if request <= count {
        return Done(());
      }
      if request > MAXIMUM_COUNT {
        return RangeError;
      }
      var capacity := Grow(count, request);
      var grown := new Element?[capacity](_ => null);
      if base != null {
        var i := 0;
        while i < count
          invariant 0 <= i <= count == old(count) && base == old(base)
          invariant forall k | 0 <= k < i :: grown[k] == base[k]
          invariant forall k | i <= k < capacity :: grown[k] == null
        {
          grown[i] := base[i];
          i := i + 1;
        }
      }
      base, count := grown, capacity;
      outcome := Done(());
    }

    /** IO_Event_Array_lookup: the element keeps its address once it exists. The allocation is too small exactly for the
        number whose successor wraps, and for one above the default on an empty array. */
    method Lookup(index: nat) returns (outcome: Outcome<Element>)
      requires Valid() && index < SIZE_LIMIT
      modifies this`base, this`count, this`limit, base
      ensures Valid()
      ensures outcome.OutOfBounds? <==>
                index == SIZE_LIMIT - 1 || (old(count) == 0 && DEFAULT_COUNT <= index < MAXIMUM_COUNT)
      ensures outcome.RangeError? <==> MAXIMUM_COUNT <= index < SIZE_LIMIT - 1
      ensures !outcome.Done? ==> Elements() == old(Elements()) && limit == old(limit)
      ensures outcome.Done? ==> Elements() == old(Elements())[index := outcome.value]
      ensures outcome.Done? && index in old(Elements()) ==>
                outcome.value == old(Elements())[index] && limit == old(limit)
      ensures outcome.Done? && index !in old(Elements()) ==>
                fresh(outcome.value) && limit == if index < old(limit) then old(limit) else index + 1
      ensures base != old(base) ==> base != null && fresh(base)
    {
      var request := Wrap(index + 1);
      if request > count {
        var resized := Resize(request);
        if resized.RangeError? {
          return RangeError;
        }
      }
      if index >= count {
        return OutOfBounds;
      }
      var element := Fill(index, request);
      outcome := Done(element);
    }

    /** Allocates the element of a slot that has none. */
    method Fill(index: nat, request: nat) returns (element: Element)
      requires Valid() && index < count && request == index + 1
      modifies this`limit, base
      ensures Valid() && Elements() == old(Elements())[index := element]
      ensures index in old(Elements()) ==> element == old(Elements())[index] && limit == old(limit)
      ensures index !in old(Elements()) ==>
                fresh(element) && limit == if index < old(limit) then old(limit) else request
    {
      if base[index] == null {
        base[index] := new Element();
        if request > limit {
          limit := request;
        }
      }
      element := base[index];
    }

    /** IO_Event_Array_push: a new element right after the highest one, also in an empty array. */
    method Push() returns (outcome: Outcome<Element>)
      requires Valid()
      modifies this`base, this`count, this`limit, base
      ensures Valid() && !outcome.OutOfBounds?
      ensures outcome.RangeError? <==> old(limit) >= MAXIMUM_COUNT
      ensures outcome.RangeError? ==> Elements() == old(Elements())
      ensures outcome.Done? ==> fresh(outcome.value) && limit == old(limit) + 1
      ensures outcome.Done? ==> Elements() == old(Elements())[old(limit) := outcome.value]
      ensures base != old(base) ==> base != null && fresh(base)
    {
      outcome := Lookup(limit);
    }

    /** IO_Event_Array_truncate: elements from `to` on are freed. */
    method Truncate(to: nat)
      requires Valid()
      modifies this`limit, this`freed, base
      ensures Valid() && limit == if to < old(limit) then to else old(limit)
      ensures Elements() == map i | i in old(Elements()) && i < to :: old(Elements())[i]
      ensures freed == old(freed) + Between(old(Elements()), to, old(limit))
    {
      if to < limit {
        var i := to;
        while i < limit
          invariant to <= i <= limit == old(limit) && base == old(base) && count == old(count)
          invariant forall k | 0 <= k < count :: base[k] == if to <= k < i then null else old(base[k])
          invariant freed == old(freed) + Between(old(Elements()), to, i)
        {
          BetweenStep(old(Elements()), to, i);
          if base[i] != null {
            freed := freed + {base[i]};
            base[i] := null;
          }
          i := i + 1;
        }
        limit := to;
        assert Between(old(Elements()), to, i) == Between(old(Elements()), to, old(limit));
      }
    }

    /** IO_Event_Array_free: every element is freed. */
    method Free()
      requires Valid()
      modifies this
      ensures Valid() && Elements() == map[] && count == 0
      ensures freed == old(freed) + old(Elements()).Values
    {
      if base != null {
        var slots, slotLimit := base, limit;
        base, count, limit := null, 0, 0;
        var i := 0;
        while i < slotLimit
          invariant 0 <= i <= slotLimit && Valid() && base == null
          invariant freed == old(freed) + Between(old(Elements()), 0, i)
        {
          BetweenStep(old(Elements()), 0, i);
          if slots[i] != null {
            freed := freed + {slots[i]};
          }
          i := i + 1;
        }
        assert Between(old(Elements()), 0, slotLimit) == old(Elements()).Values;
      }
    }
  }

  /** An empty array that is asked for 129 elements has no room for them although the call succeeds. */
  method EmptyArrayFallsShort() returns (a: EventArray)
    ensures fresh(a) && a.Valid() && a.count < 129
  {
    a := new EventArray(0);
    var outcome := a.Resize(129);
    assert outcome.Done?;
  }
}

/** The storage capacity of a link's queue. */
module Storage {

  datatype StorageState = StorageState(max: real, used: real)

  /** The queue must at least hold what may flow out of it in one second. */
  function MaxStorage(length: real, lanes: real, capacityHour: real, sampleSize: real, cellSize: real): (r: real)
    requires cellSize != 0.0
  {
    var flowPerSecond := capacityHour * sampleSize / 3600.0;
    var cap := length * lanes * sampleSize / cellSize;
    if cap < flowPerSecond then flowPerSecond else cap
  }

  predicate Available(s: StorageState)
  {
    s.max - s.used > 0.0
  }

  class StorageCap {
    const max: real
    var used: real

    constructor (length: real, lanes: real, capacityHour: real, sampleSize: real, cellSize: real)
      requires cellSize != 0.0
      ensures State() == StorageState(MaxStorage(length, lanes, capacityHour, sampleSize, cellSize), 0.0)
    {
      max := MaxStorage(length, lanes, capacityHour, sampleSize, cellSize);
      used := 0.0;
    }

    function State(): (s: StorageState)
      reads this
    {
      StorageState(max, used)
    }

    method Consume(value: real)
      modifies this
      ensures State() == old(State()).(used := old(used) + value)
    {
      used := used + value;
    }

    method Release(value: real)
      modifies this
      ensures State() == old(State()).(used := old(used) - value)
    {
      used := used - value;
    }
  }
}

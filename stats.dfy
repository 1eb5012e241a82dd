/** The round-trip statistics record and the two updates that ping makes to it. */
module Stats {

  /** Converts a round-trip time given in seconds to milliseconds. */
  function Millis(rttSeconds: real): real
  {
    rttSeconds * 1000.0
  }

  /** The new Min after a reply of `v` ms. A Min of 0 means "no reply yet",
      so the first reply always sets it; after that it only ever goes down. */
  function NextMin(min: real, v: real): (m: real)
    ensures min == 0.0 ==> m == v
    ensures min != 0.0 ==> m <= min && m <= v && (m == min || m == v)
  {
    if v < min || min == 0.0 then v else min
  }

  /** The new Max after a reply of `v` ms: the larger of the two. */
  function NextMax(max: real, v: real): (m: real)
    ensures max <= m && v <= m
    ensures m == max || m == v
  {
    if v > max then v else max
  }

  /** The new Avg after a reply of `v` ms: it moves half-way towards the
      latest reply, so it stays between the old Avg and that reply. */
  function NextAvg(avg: real, v: real): (a: real)
    ensures a - v == (avg - v) / 2.0
    ensures avg <= v ==> avg <= a <= v
    ensures v <= avg ==> v <= a <= avg
  {
    (avg + v) / 2.0
  }

  /** The process-lifetime statistics record. `start` is the process start
      time, abstracted to a number. */
  class Statistics {
    var hostname: string
    var endpoint: string
    var address: string
    var count: int
    var min: real
    var max: real
    var avg: real
    var value: real
    var start: int

    /** Attempts never go negative and the latest reply lies within [Min, Max]
        (the zeroed record satisfies this too). */
    ghost predicate Valid()
      reads this
    {
      0 <= count && min <= value <= max
    }

    /** The zeroed record built at process start. */
    constructor (start: int)
      ensures Valid()
      ensures count == 0 && min == 0.0 && max == 0.0 && avg == 0.0 && value == 0.0
      ensures hostname == "" && endpoint == "" && address == ""
      ensures this.start == start
    {
      hostname, endpoint, address := "", "", "";
      count := 0;
      min, max, avg, value := 0.0, 0.0, 0.0, 0.0;
      this.start := start;
    }

    /** One more ping attempt; counted before the probe runs, whether or not
        a reply comes back. */
    method Attempt()
      requires Valid()
      modifies this`count
      ensures Valid()
      ensures count == old(count) + 1
    {
      count := count + 1;
    }

    /** The reply callback: records the round-trip time in ms and folds it
        into Min, Max and Avg. Nothing else in the record changes. */
    method OnRecv(rttSeconds: real)
      requires Valid()
      modifies this`value, this`min, this`max, this`avg
      ensures Valid()
      ensures value == Millis(rttSeconds)
      ensures min == NextMin(old(min), value)
      ensures max == NextMax(old(max), value)
      ensures avg == NextAvg(old(avg), value)
      ensures min <= value <= max
      ensures old(max) <= max
      ensures old(min) != 0.0 ==> min <= old(min)
      ensures count == old(count) && start == old(start)
      ensures hostname == old(hostname) && endpoint == old(endpoint) && address == old(address)
    {
      value := Millis(rttSeconds);
      if value < min || min == 0.0 {
        min := value;
      }
      if value > max {
        max := value;
      }
      avg := (avg + value) / 2.0;
    }
  }
}

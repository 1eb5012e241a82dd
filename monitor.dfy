/** The ping loop: each attempt is counted, then yields a reply (its
    round-trip time in seconds) or nothing, and a reply is folded into the
    record. */
module Monitor {
  import opened Wrappers
  import opened Stats
  import opened Folds
  import opened Config

  /** The samples, in ms, of the replies that arrived, in order. */
  function Samples(replies: seq<Option<real>>): seq<real>
    decreases |replies|
  {
    if replies == [] then []
    else
      var earlier := Samples(replies[..|replies| - 1]);
      match replies[|replies| - 1]
      case None => earlier
      case Some(rtt) => earlier + [Millis(rtt)]
  }

  /** Samples of replies that were all strictly positive are strictly positive. */
  lemma {:induction false} PositiveSamples(replies: seq<Option<real>>)
    requires forall i :: 0 <= i < |replies| && replies[i].Some? ==> replies[i].value > 0.0
    ensures forall k :: 0 <= k < |Samples(replies)| ==> Samples(replies)[k] > 0.0
    decreases |replies|
  {
    if replies != [] {
      PositiveSamples(replies[..|replies| - 1]);
    }
  }

  /** One pass of the loop: the attempt is counted before the probe runs; a
      reply then updates Value, Min, Max and Avg, a timeout changes nothing more. */
  method Ping(stats: Statistics, reply: Option<real>)
    requires stats.Valid()
    modifies stats`count, stats`value, stats`min, stats`max, stats`avg
    ensures stats.Valid()
    ensures stats.count == old(stats.count) + 1
    ensures reply.None? ==>
      stats.value == old(stats.value) && stats.min == old(stats.min) &&
      stats.max == old(stats.max) && stats.avg == old(stats.avg)
    ensures reply.Some? ==>
      stats.value == Millis(reply.value) &&
      stats.min == NextMin(old(stats.min), stats.value) &&
      stats.max == NextMax(old(stats.max), stats.value) &&
      stats.avg == NextAvg(old(stats.avg), stats.value)
  {
    stats.Attempt();
    match reply {
      case Some(rtt) => stats.OnRecv(rtt);
      case None =>
    }
  }

  /** A run of the (endless) loop cut after |replies| passes: Count grows by
      one per pass, and Min, Max, Avg and Value are the folds of the samples
      that arrived. */
  method Watch(stats: Statistics, replies: seq<Option<real>>)
    requires stats.Valid()
    modifies stats`count, stats`value, stats`min, stats`max, stats`avg
    ensures stats.Valid()
    ensures stats.count == old(stats.count) + |replies|
    ensures stats.min == FoldMin(old(stats.min), Samples(replies))
    ensures stats.max == FoldMax(old(stats.max), Samples(replies))
    ensures stats.avg == FoldAvg(old(stats.avg), Samples(replies))
    ensures stats.value == LastOr(old(stats.value), Samples(replies))
  {
    var i := 0;
    while i < |replies|
      invariant 0 <= i <= |replies|
      invariant stats.Valid()
      invariant stats.count == old(stats.count) + i
      invariant stats.min == FoldMin(old(stats.min), Samples(replies[..i]))
      invariant stats.max == FoldMax(old(stats.max), Samples(replies[..i]))
      invariant stats.avg == FoldAvg(old(stats.avg), Samples(replies[..i]))
      invariant stats.value == LastOr(old(stats.value), Samples(replies[..i]))
    {
      assert replies[..i + 1][..i] == replies[..i];
      Ping(stats, replies[i]);
      i := i + 1;
    }
    assert replies[..|replies|] == replies;
  }

  /** The process from start-up: the zeroed record, tagged with the chosen
      hostname, endpoint and resolved address, then |replies| passes of the loop. */
  method Run(start: int, osHostname: string, hostnameFile: Option<seq<string>>,
             args: seq<string>, env: Option<string>, address: string,
             replies: seq<Option<real>>) returns (stats: Statistics)
    ensures fresh(stats) && stats.Valid()
    ensures stats.start == start
    ensures stats.hostname == SelectHostname(osHostname, hostnameFile)
    ensures stats.endpoint == GetEndpoint(args, env)
    ensures stats.address == address
    ensures stats.count == |replies|
    ensures stats.min == FoldMin(0.0, Samples(replies))
    ensures stats.max == FoldMax(0.0, Samples(replies))
    ensures stats.value == LastOr(0.0, Samples(replies))
    ensures stats.avg == FoldAvg(0.0, Samples(replies)) == Smoothed(Samples(replies))
    ensures Samples(replies) == [] ==> stats.min == 0.0 && stats.max == 0.0 && stats.value == 0.0
    ensures (forall i :: 0 <= i < |replies| && replies[i].Some? ==> replies[i].value > 0.0) &&
            Samples(replies) != [] ==>
      stats.min in Samples(replies) && stats.max in Samples(replies) &&
      (forall k :: 0 <= k < |Samples(replies)| ==> stats.min <= Samples(replies)[k] <= stats.max)
  {
    stats := new Statistics(start);
    stats.hostname := ScanHostname(osHostname, hostnameFile);
    stats.endpoint := GetEndpoint(args, env);
    stats.address := address;
    Watch(stats, replies);
    var samples := Samples(replies);
    AvgClosedForm(0.0, samples);
    if (forall i :: 0 <= i < |replies| && replies[i].Some? ==> replies[i].value > 0.0) && samples != [] {
      PositiveSamples(replies);
      MinIsSmallestSample(samples);
      MaxIsLargestSample(samples);
    }
  }
}

/**
 * The speed test: one probe of the entry's proxy, normalised to a delay, and
 * one sample appended to the history of the first proxy in the store with
 * that name. The probe's reply and the timestamp are inputs.
 */
module Store {
  import opened Wrappers
  import opened ProxyModel
  import Display

  /**
   * The reply of a delay probe: the request failed; the desktop bridge
   * answered, possibly with nothing; or the controller answered with a delay.
   */
  datatype Probe = Failed | Bridge(answer: Option<int>) | Api(delay: int)

  /** The delay the speed test records: 0 for a failure or a missing bridge answer. */
  function RecordedDelay(p: Probe): int {
    match p
    case Failed => 0
    case Bridge(answer) => answer.GetOr(0)
    case Api(delay) => delay
  }

  /**
   * A recorded 0 cannot tell a failed probe or an empty bridge answer from a
   * measured 0; every other reply is recorded as its own value.
   */
  lemma RecordedDelayZeroIff(p: Probe)
    ensures RecordedDelay(p) == 0 <==>
              p.Failed? || p == Bridge(None) || p == Bridge(Some(0)) || p == Api(0)
    ensures p.Bridge? && p.answer.Some? ==> RecordedDelay(p) == p.answer.value
    ensures p.Api? ==> RecordedDelay(p) == p.delay
  {
    match p
    case Failed =>
    case Bridge(answer) =>
    case Api(delay) =>
  }

  /** How a speed-test update ended. */
  datatype Outcome =
    | Appended(index: nat)
    | NoMatch
    | MissingHistory(index: nat)  // the matching entry has no history array to push to

  /** Index of the first proxy named `name`, if any. */
  function FirstNamed(proxies: seq<ProxyConfig>, name: string): (r: Option<nat>)
    ensures r.Some? ==> r.value < |proxies| && proxies[r.value].name == name
    ensures r.Some? ==> forall j :: 0 <= j < r.value ==> proxies[j].name != name
    ensures r.None? ==> forall j :: 0 <= j < |proxies| ==> proxies[j].name != name
  {
    if proxies == [] then None
    else if proxies[0].name == name then Some(0)
    else match FirstNamed(proxies[1..], name)
      case None => None
      case Some(k) => Some(k + 1)
  }

  function UpdateOutcome(proxies: seq<ProxyConfig>, name: string): Outcome {
    match FirstNamed(proxies, name)
    case None => NoMatch
    case Some(i) => if proxies[i].history.Some? then Appended(i) else MissingHistory(i)
  }

  /** The store after appending `s` to the first proxy named `name`. */
  function Recorded(proxies: seq<ProxyConfig>, name: string, s: Sample): seq<ProxyConfig> {
    match UpdateOutcome(proxies, name)
    case Appended(i) => proxies[i := proxies[i].(history := Some(proxies[i].history.value + [s]))]
    case _ => proxies
  }

  /** Number of samples over every proxy of the store. */
  function TotalSamples(proxies: seq<ProxyConfig>): nat {
    if proxies == [] then 0 else SampleCount(proxies[0]) + TotalSamples(proxies[1..])
  }

  function SampleCount(p: ProxyConfig): nat {
    if p.history.Some? then |p.history.value| else 0
  }

  lemma {:induction false} TotalSamplesUpdate(proxies: seq<ProxyConfig>, i: nat, p: ProxyConfig)
    requires i < |proxies|
    ensures TotalSamples(proxies[i := p]) + SampleCount(proxies[i]) == TotalSamples(proxies) + SampleCount(p)
    decreases i
  {
    if i > 0 {
      assert proxies[i := p][1..] == proxies[1..][i - 1 := p];
      TotalSamplesUpdate(proxies[1..], i - 1, p);
    } else {
      assert proxies[i := p][1..] == proxies[1..];
    }
  }

  /**
   * The update appends exactly one sample, to the first proxy with the name:
   * its earlier samples and other fields stay, every other proxy stays.
   */
  lemma RecordedAppendsToFirstMatch(proxies: seq<ProxyConfig>, name: string, s: Sample, i: nat)
    requires UpdateOutcome(proxies, name) == Appended(i)
    ensures var r := Recorded(proxies, name, s);
            && |r| == |proxies|
            && i < |proxies| && proxies[i].name == name
            && (forall j :: 0 <= j < i ==> proxies[j].name != name)
            && r[i] == proxies[i].(history := Some(proxies[i].history.value + [s]))
            && (forall j :: 0 <= j < |r| && j != i ==> r[j] == proxies[j])
            && LatestDelay(r[i].history) == s.delay
            && TotalSamples(r) == TotalSamples(proxies) + 1
  {
    var p := proxies[i].(history := Some(proxies[i].history.value + [s]));
    TotalSamplesUpdate(proxies, i, p);
    LatestDelayAfterAppend(proxies[i].history.value, s);
  }

  /** Without a matching proxy with a history, the store is unchanged. */
  lemma RecordedOtherwiseUnchanged(proxies: seq<ProxyConfig>, name: string, s: Sample)
    requires !UpdateOutcome(proxies, name).Appended?
    ensures Recorded(proxies, name, s) == proxies
    ensures (forall j :: 0 <= j < |proxies| ==> proxies[j].name != name) ==> UpdateOutcome(proxies, name) == NoMatch
  {
  }

  /** A failed probe, or an empty bridge answer, makes the updated entry show an error. */
  lemma FailedProbeShowsError(proxies: seq<ProxyConfig>, name: string, time: string, p: Probe, i: nat)
    requires p.Failed? || p == Bridge(None)
    requires UpdateOutcome(proxies, name) == Appended(i)
    ensures Display.HasError(LatestDelay(Recorded(proxies, name, Sample(time, RecordedDelay(p)))[i].history))
  {
  }

  /** The store's `proxies.find` by name. */
  method FindProxy(proxies: seq<ProxyConfig>, name: string) returns (index: Option<nat>)
    ensures index == FirstNamed(proxies, name)
  {
    var i := 0;
    while i < |proxies|
      invariant 0 <= i <= |proxies|
      invariant forall j :: 0 <= j < i ==> proxies[j].name != name
    {
      if proxies[i].name == name {
        return Some(i);
      }
      i := i + 1;
    }
    return None;
  }

  /** The proxy store the widget updates through its draft. */
  class ProxyStore {
    var proxies: seq<ProxyConfig>

    constructor (proxies: seq<ProxyConfig>)
      ensures this.proxies == proxies
    {
      this.proxies := proxies;
    }

    /** Records the probe's delay, at `time`, on the first proxy named `name`. */
    method SpeedTest(name: string, time: string, probe: Probe) returns (outcome: Outcome)
      modifies this
      ensures outcome == UpdateOutcome(old(proxies), name)
      ensures proxies == Recorded(old(proxies), name, Sample(time, RecordedDelay(probe)))
    {
      var validDelay := RecordedDelay(probe);
      var found := FindProxy(proxies, name);
      if found.None? {
        return NoMatch;
      }
      var i := found.value;
      var proxy := proxies[i];
      if proxy.history.None? {
        return MissingHistory(i);
      }
      proxies := proxies[i := proxy.(history := Some(proxy.history.value + [Sample(time, validDelay)]))];
      outcome := Appended(i);
    }
  }
}

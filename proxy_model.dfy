/**
 * The records the proxy widget reads: a proxy entry with its latency
 * history, and a proxy group with its current selection.
 */
module ProxyModel {
  import opened Wrappers

  /** One latency measurement: an opaque timestamp and a delay in milliseconds. */
  datatype Sample = Sample(time: string, delay: int)

  /**
   * A proxy entry. `history` is optional because the widget reads it with
   * optional chaining; `kind` is the proxy's `type` tag.
   */
  datatype ProxyConfig = ProxyConfig(name: string, kind: string, udp: bool, history: Option<seq<Sample>>)

  /** A proxy group: its name and the name of the proxy it has selected. */
  datatype Group = Group(name: string, now: string)

  /** The delay of the newest sample, or 0 when there is no history or it is empty. */
  function LatestDelay(history: Option<seq<Sample>>): int {
    if history.Some? && |history.value| > 0 then history.value[|history.value| - 1].delay else 0
  }

  /** Appending a sample makes it the one whose delay is shown. */
  lemma LatestDelayAfterAppend(h: seq<Sample>, s: Sample)
    ensures LatestDelay(Some(h + [s])) == s.delay
  {
  }

  /**
   * The shown delay is either 0 or the delay of some sample of the history,
   * and it is 0 whenever there is no sample to show.
   */
  lemma LatestDelayIsASample(history: Option<seq<Sample>>)
    ensures history.None? || history.value == [] ==> LatestDelay(history) == 0
    ensures LatestDelay(history) != 0 ==>
              history.Some? && exists k :: 0 <= k < |history.value| && history.value[k].delay == LatestDelay(history)
  {
  }

  /**
   * Zero is overloaded: an entry never probed and one whose newest probe
   * failed (recorded as 0) show the same delay.
   */
  lemma ZeroDelayIsAmbiguous(h: seq<Sample>, time: string)
    ensures LatestDelay(None) == LatestDelay(Some([])) == LatestDelay(Some(h + [Sample(time, 0)])) == 0
  {
  }
}

/**
 * Selecting the entry: the change request for the first group, the store
 * update, and, when breaking connections is configured, closing every
 * connection whose chain contains the selected proxy's name. The replies of
 * the controller are inputs; the result is the sequence of calls made.
 */
module Selection {
  import opened Wrappers
  import opened ProxyModel
  import Display

  /** A live connection in the controller's snapshot. */
  datatype Connection = Connection(id: string, chains: seq<string>)

  /** The calls the handler issues, in the order it issues them. */
  datatype Call =
    | ChangeProxySelected(group: string, proxy: string)
    | MarkProxySelected(group: string, proxy: string)
    | GetConnections
    | CloseConnection(id: string)

  /** Ids of the snapshot's connections whose chains contain `name`, in snapshot order. */
  function MatchingIds(snapshot: seq<Connection>, name: string): seq<string> {
    if snapshot == [] then []
    else
      var last := snapshot[|snapshot| - 1];
      MatchingIds(snapshot[..|snapshot| - 1], name) + (if name in last.chains then [last.id] else [])
  }

  /** Positions of the snapshot's connections whose chains contain `name`, ascending. */
  function MatchingPositions(snapshot: seq<Connection>, name: string): (r: seq<nat>)
    ensures forall k :: 0 <= k < |r| ==> r[k] < |snapshot| && name in snapshot[r[k]].chains
    ensures forall k, l :: 0 <= k < l < |r| ==> r[k] < r[l]
    ensures forall j :: 0 <= j < |snapshot| && name in snapshot[j].chains ==> j in r
  {
    if snapshot == [] then []
    else
      var n := |snapshot| - 1;
      MatchingPositions(snapshot[..n], name) + (if name in snapshot[n].chains then [n] else [])
  }

  /**
   * The collected ids are exactly those of the matching connections, taken
   * in snapshot order: the k-th id is the id at the k-th matching position.
   */
  lemma {:induction false} MatchingIdsInOrder(snapshot: seq<Connection>, name: string)
    ensures |MatchingIds(snapshot, name)| == |MatchingPositions(snapshot, name)|
    ensures forall k :: 0 <= k < |MatchingIds(snapshot, name)| ==>
              MatchingIds(snapshot, name)[k] == snapshot[MatchingPositions(snapshot, name)[k]].id
  {
    if snapshot != [] {
      var n := |snapshot| - 1;
      var front := snapshot[..n];
      MatchingIdsInOrder(front, name);
      assert forall j :: 0 <= j < n ==> front[j] == snapshot[j];
    }
  }

  /** An id is collected exactly when some connection with that id has the name in its chain. */
  lemma {:induction false} MatchingIdsMembership(snapshot: seq<Connection>, name: string, id: string)
    ensures id in MatchingIds(snapshot, name) <==>
              exists j :: 0 <= j < |snapshot| && snapshot[j].id == id && name in snapshot[j].chains
  {
    if snapshot != [] {
      var n := |snapshot| - 1;
      var front := snapshot[..n];
      MatchingIdsMembership(front, name, id);
      assert forall j :: 0 <= j < n ==> front[j] == snapshot[j];
    }
  }

  /** Collecting distributes over concatenation of snapshots, so it keeps their order. */
  lemma {:induction false} MatchingIdsAppend(a: seq<Connection>, b: seq<Connection>, name: string)
    ensures MatchingIds(a + b, name) == MatchingIds(a, name) + MatchingIds(b, name)
    decreases |b|
  {
    if b == [] {
      assert a + b == a;
    } else {
      var n := |b| - 1;
      assert (a + b)[..|a + b| - 1] == a + b[..n];
      MatchingIdsAppend(a, b[..n], name);
    }
  }

  /**
   * Two connections through `g1`, one via `a` and one via `b`: selecting `a`
   * collects only the first.
   */
  lemma TwoConnectionsScenario()
    ensures MatchingIds([Connection("1", ["g1", "a"]), Connection("2", ["g1", "b"])], "a") == ["1"]
  {
  }

  /** The connection-filter loop of the handler. */
  method CollectIds(snapshot: seq<Connection>, name: string) returns (list: seq<string>)
    ensures list == MatchingIds(snapshot, name)
  {
    list := [];
    var i := 0;
    while i < |snapshot|
      invariant 0 <= i <= |snapshot|
      invariant list == MatchingIds(snapshot[..i], name)
    {
      var connection := snapshot[i];
      assert snapshot[..i + 1][..i] == snapshot[..i];
      if name in connection.chains {
        list := list + [connection.id];
      }
      i := i + 1;
    }
    assert snapshot[..i] == snapshot;
  }

  /** One close call per id, in list order. */
  function CloseCalls(ids: seq<string>): (r: seq<Call>)
    ensures |r| == |ids|
    ensures forall k :: 0 <= k < |r| ==> r[k] == CloseConnection(ids[k])
  {
    seq(|ids|, k requires 0 <= k < |ids| => CloseConnection(ids[k]))
  }

  /** Ids of the close calls of a call sequence, in call order. */
  function ClosedIds(calls: seq<Call>): seq<string> {
    if calls == [] then []
    else (if calls[0].CloseConnection? then [calls[0].id] else []) + ClosedIds(calls[1..])
  }

  lemma {:induction false} ClosedIdsAppend(a: seq<Call>, b: seq<Call>)
    ensures ClosedIds(a + b) == ClosedIds(a) + ClosedIds(b)
    decreases |a|
  {
    if a != [] {
      assert (a + b)[1..] == a[1..] + b;
      ClosedIdsAppend(a[1..], b);
    } else {
      assert a + b == b;
    }
  }

  /** The close calls close exactly the given ids, in order. */
  lemma {:induction false} ClosedIdsOfCloseCalls(ids: seq<string>)
    ensures ClosedIds(CloseCalls(ids)) == ids
    decreases |ids|
  {
    if ids != [] {
      assert CloseCalls(ids)[1..] == CloseCalls(ids[1..]);
      ClosedIdsOfCloseCalls(ids[1..]);
    }
  }

  /**
   * The selection handler. `selectAccepted` is whether the change request
   * succeeded; `snapshot` is the connection list, or `None` when fetching it
   * failed. A failed request ends the handler at that point.
   */
  method HandleChangeProxySelected(
    groups: seq<Group>, name: string, breakConnections: bool,
    selectAccepted: bool, snapshot: Option<seq<Connection>>)
    returns (calls: seq<Call>)
    requires |groups| > 0
    ensures |calls| >= 1 && calls[0] == ChangeProxySelected(groups[0].name, name)
    ensures !selectAccepted ==> calls == [ChangeProxySelected(groups[0].name, name)]
    ensures selectAccepted ==> |calls| >= 2 && calls[1] == MarkProxySelected(groups[0].name, name)
    ensures selectAccepted && !breakConnections ==> |calls| == 2
    ensures selectAccepted && breakConnections ==> |calls| >= 3 && calls[2] == GetConnections
    ensures selectAccepted && breakConnections && snapshot.None? ==> |calls| == 3
    ensures selectAccepted && breakConnections && snapshot.Some? ==>
              calls[3..] == CloseCalls(MatchingIds(snapshot.value, name))
    ensures forall k :: 0 <= k < |calls| && calls[k].CloseConnection? ==>
              selectAccepted && breakConnections && snapshot.Some? &&
              calls[k].id in MatchingIds(snapshot.value, name)
  {
    var group := groups[0].name;
    calls := [ChangeProxySelected(group, name)];
    if !selectAccepted {
      return;
    }
    calls := calls + [MarkProxySelected(group, name)];
    if breakConnections {
      calls := calls + [GetConnections];
      if snapshot.None? {
        return;
      }
      var list := CollectIds(snapshot.value, name);
      calls := calls + CloseCalls(list);
    }
  }

  /**
   * Every call trace that meets the handler's contract closes exactly the
   * matching ids, in snapshot order, when the request was accepted, breaking
   * connections is on and the snapshot arrived, and closes nothing otherwise.
   */
  lemma HandlerClosesMatching(
    groups: seq<Group>, name: string, breakConnections: bool,
    selectAccepted: bool, snapshot: Option<seq<Connection>>, calls: seq<Call>)
    requires |groups| > 0
    requires |calls| >= 1 && calls[0] == ChangeProxySelected(groups[0].name, name)
    requires !selectAccepted ==> calls == [ChangeProxySelected(groups[0].name, name)]
    requires selectAccepted ==> |calls| >= 2 && calls[1] == MarkProxySelected(groups[0].name, name)
    requires selectAccepted && !breakConnections ==> |calls| == 2
    requires selectAccepted && breakConnections ==> |calls| >= 3 && calls[2] == GetConnections
    requires selectAccepted && breakConnections && snapshot.None? ==> |calls| == 3
    requires selectAccepted && breakConnections && snapshot.Some? ==>
               calls[3..] == CloseCalls(MatchingIds(snapshot.value, name))
    ensures ClosedIds(calls) ==
              (if selectAccepted && breakConnections && snapshot.Some?
               then MatchingIds(snapshot.value, name) else [])
  {
    var n := if |calls| < 3 then |calls| else 3;
    var head := calls[..n];
    assert ClosedIds(head) == [] by {
      if n == 3 {
        assert head == [head[0]] + [head[1]] + [head[2]];
        ClosedIdsAppend([head[0]] + [head[1]], [head[2]]);
        ClosedIdsAppend([head[0]], [head[1]]);
      } else if n == 2 {
        assert head == [head[0]] + [head[1]];
        ClosedIdsAppend([head[0]], [head[1]]);
      }
    }
    assert calls == head + calls[n..];
    ClosedIdsAppend(head, calls[n..]);
    if selectAccepted && breakConnections && snapshot.Some? {
      ClosedIdsOfCloseCalls(MatchingIds(snapshot.value, name));
    } else {
      assert calls[n..] == [];
    }
  }

  /** A click: ignored when the entry shows an error, otherwise the selection handler. */
  method OnClick(
    config: ProxyConfig, groups: seq<Group>, breakConnections: bool,
    selectAccepted: bool, snapshot: Option<seq<Connection>>)
    returns (calls: seq<Call>)
    requires |groups| > 0
    ensures Display.HasError(LatestDelay(config.history)) <==> calls == []
    ensures calls != [] ==> calls[0] == ChangeProxySelected(groups[0].name, config.name)
  {
    if Display.ClickSelects(LatestDelay(config.history)) {
      calls := HandleChangeProxySelected(groups, config.name, breakConnections, selectAccepted, snapshot);
    } else {
      calls := [];
    }
  }
}

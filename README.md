# Proxy entry widget: decision logic

This project models the decision logic of the proxy entry widget of a
Clash dashboard (`src/containers/Proxies/components/Proxy/index.tsx`). The
widget renders one proxy of a group. It shows the proxy's latest delay in
a coloured tag. A click selects the proxy, and a speed test appends a
new latency sample to the proxy's history. Rendering, React hooks and
network I/O are left out. The replies the widget receives from the
controller are inputs of the model.

Modules, one per concern of the widget:

- `ProxyModel`: the records the widget reads (`Sample`, `ProxyConfig`,
  `Group`) and `LatestDelay`, the delay shown (the last sample's delay, or 0).
- `TagColors`: the ordered threshold table (`#909399` ≤ 0, `#00c520` ≤ 260,
  `#ff9a28` ≤ 600, `#ff3e5e` unbounded) and its first-match lookup. The
  unbounded threshold (`Infinity` in the source) is `limit == None`.
  `Object.keys` yields these non-numeric keys in declaration order.
- `Decimal`: the integer-to-text rendering used by the `${delay}ms` label,
  with a parser that inverts it.
- `Display`: `HasError` (delay 0), the background, the label, the dimmed
  style, `IsCurrent` (the first group's `now` is this proxy), and the click gate.
- `Selection`: the selection handler as the sequence of calls it issues
  (`Call`), and the connection-filter loop `CollectIds`, proved equal to
  the order-preserving filter `MatchingIds`.
- `Store`: the probe reply normalised to a delay, and the `ProxyStore`
  class whose `SpeedTest` method appends one sample to the first proxy
  with the matching name.

Three facts about the code shape the model:

- The handler closes the connections whose chains contain the newly
  selected proxy's name, not those of the previously selected one.
- A history grows without a bound.
- The widget always selects in `groups[0]`.

## Model

| member | source | states |
|---|---|---|
| ProxyModel.LatestDelay | src/containers/Proxies/components/Proxy/index.tsx:84 | the shown delay; its properties are stated by `LatestDelayAfterAppend`, `LatestDelayIsASample` and `ZeroDelayIsAmbiguous` |
| ProxyModel.LatestDelayAfterAppend | src/containers/Proxies/components/Proxy/index.tsx:83-86 | after a sample is appended, the shown delay is that sample's delay |
| ProxyModel.LatestDelayIsASample | src/containers/Proxies/components/Proxy/index.tsx:83-86 | an absent or empty history shows 0; a non-zero shown delay is the delay of a sample of the history |
| ProxyModel.ZeroDelayIsAmbiguous | src/containers/Proxies/components/Proxy/index.tsx:84 | a never-probed entry and one whose latest probe recorded 0 show the same delay 0 |
| TagColors.FirstAdmitting | src/containers/Proxies/components/Proxy/index.tsx:101-108 | the index found is the first entry, in table order, whose threshold is at least the delay; none only when no entry admits it |
| TagColors.Lookup | src/containers/Proxies/components/Proxy/index.tsx:103-106 | a colour is found exactly when some entry's threshold is at least the delay |
| TagColors.ColorOf | src/containers/Proxies/components/Proxy/index.tsx:101-108 | the colour memo over the declared table; its bands are stated by `ColorBands` and its existence by `ColorAlwaysExists` |
| TagColors.UnboundedLastEntryAlwaysMatches | src/containers/Proxies/components/Proxy/index.tsx:18-23 | a table ending in an unbounded threshold yields a colour for every delay |
| TagColors.LookupMonotone | src/containers/Proxies/components/Proxy/index.tsx:103-106 | a larger delay never selects an earlier table entry than a smaller delay |
| TagColors.ColorBands | src/containers/Proxies/components/Proxy/index.tsx:18-23 | delay ≤ 0 is `#909399`, 1–260 `#00c520`, 261–600 `#ff9a28`, above 600 `#ff3e5e` |
| TagColors.ColorAlwaysExists | src/containers/Proxies/components/Proxy/index.tsx:101-108 | the colour memo is never undefined and is one of the four table colours |
| Decimal.NatToString | src/containers/Proxies/components/Proxy/index.tsx:138 | the rendering of a natural number is a non-empty string of digits with no leading zero; only 0 renders with a leading `0` |
| Decimal.IntToString | src/containers/Proxies/components/Proxy/index.tsx:138 | the rendering starts with `-` exactly for negative numbers, and the digits after the sign, or the whole text, have no leading zero (no `-0`) |
| Decimal.ParseNatToString | src/containers/Proxies/components/Proxy/index.tsx:138 | parsing the digits of a natural number gives the number back |
| Decimal.NatToStringOfParse | src/containers/Proxies/components/Proxy/index.tsx:138 | every digit string without a leading zero is the rendering of the number it reads as, so the rendering is the one such text |
| Decimal.ParseIntToString | src/containers/Proxies/components/Proxy/index.tsx:138 | parsing the rendering of an integer gives the integer back |
| Decimal.IntToStringInjective | src/containers/Proxies/components/Proxy/index.tsx:138 | different integers render differently |
| Display.HasError | src/containers/Proxies/components/Proxy/index.tsx:96 | the error flag; `RenderErrorRules` states that it holds exactly at delay 0 and drives the error look |
| Display.Background | src/containers/Proxies/components/Proxy/index.tsx:110 | the tag background; `BackgroundBands` states its value for every delay |
| Display.Label | src/containers/Proxies/components/Proxy/index.tsx:137-139 | the delay text; `LabelIsDashIffZero`, `LabelShowsDelay` and `LabelInjective` state its form |
| Display.IsCurrent | src/containers/Proxies/components/Proxy/index.tsx:97-100 | the highlight flag; `RenderErrorRules` states that it holds exactly when the first group's `now` is the proxy's name |
| Display.ClickSelects | src/containers/Proxies/components/Proxy/index.tsx:118-120 | the click gate; `OnClick` states that a click issues calls exactly when the entry shows no error |
| Display.Render | src/containers/Proxies/components/Proxy/index.tsx:96-143 | the decisions of one rendering; `RenderErrorRules` states how they follow from the latest delay and the first group |
| Display.BackgroundBands | src/containers/Proxies/components/Proxy/index.tsx:110 | the background is `#E5E7EB` at delay 0 and the table colour of the delay otherwise |
| Display.LabelIsDashIffZero | src/containers/Proxies/components/Proxy/index.tsx:137-139 | the delay text is `-` exactly when the delay is 0 |
| Display.LabelShowsDelay | src/containers/Proxies/components/Proxy/index.tsx:138 | for a non-zero delay the text is the decimal rendering of the delay followed by `ms`, and the part before `ms` reads back as the delay |
| Display.LabelInjective | src/containers/Proxies/components/Proxy/index.tsx:137-139 | different delays give different delay texts |
| Display.RenderErrorRules | src/containers/Proxies/components/Proxy/index.tsx:96-120 | dimmed, click ignored, `-` text and error background each hold exactly when the latest delay is 0; highlighted exactly when the first group's `now` is this proxy |
| Selection.MatchingIds | src/containers/Proxies/components/Proxy/index.tsx:35-41 | the order-preserving filter of the snapshot; `MatchingIdsInOrder`, `MatchingIdsMembership` and `MatchingIdsAppend` state that it keeps exactly the matching ids in snapshot order |
| Selection.MatchingPositions | src/containers/Proxies/components/Proxy/index.tsx:37-41 | the positions are ascending, each holds a connection whose chains contain the name, and every such connection's position is among them |
| Selection.MatchingIdsInOrder | src/containers/Proxies/components/Proxy/index.tsx:35-41 | the k-th collected id is the id of the k-th matching connection in snapshot order |
| Selection.MatchingIdsMembership | src/containers/Proxies/components/Proxy/index.tsx:37-41 | an id is collected exactly when a snapshot connection with that id has the name in its chains |
| Selection.MatchingIdsAppend | src/containers/Proxies/components/Proxy/index.tsx:37-41 | filtering a concatenated snapshot concatenates the filtered parts, so snapshot order is kept |
| Selection.TwoConnectionsScenario | src/containers/Proxies/components/Proxy/index.tsx:35-41 | connections `1` via `g1,a` and `2` via `g1,b`: selecting `a` collects `["1"]` only |
| Selection.CollectIds | src/containers/Proxies/components/Proxy/index.tsx:35-41 | the loop's `list` is exactly the order-preserving filter of the snapshot |
| Selection.CloseCalls | src/containers/Proxies/components/Proxy/index.tsx:43 | one close call per collected id, in list order; `ClosedIdsOfCloseCalls` states that the ids closed are the list |
| Selection.ClosedIdsOfCloseCalls | src/containers/Proxies/components/Proxy/index.tsx:43 | the close calls made for a list of ids close exactly those ids, in list order |
| Selection.HandleChangeProxySelected | src/containers/Proxies/components/Proxy/index.tsx:31-45 | the first-group change request always comes first; a rejected request stops there; then the store is marked; with break-connections off nothing more; on, the connections are fetched and exactly the matching ids are closed; a failed fetch closes nothing |
| Selection.HandlerClosesMatching | src/containers/Proxies/components/Proxy/index.tsx:34-43 | every call trace that meets the handler's contract closes exactly the matching ids in snapshot order when the request was accepted, breaking connections is on and the snapshot arrived, and closes nothing otherwise |
| Selection.OnClick | src/containers/Proxies/components/Proxy/index.tsx:118-120 | a click issues no call exactly when the entry shows an error; otherwise it starts with the change request |
| Store.RecordedDelayZeroIff | src/containers/Proxies/components/Proxy/index.tsx:47-69 | a failed probe or a missing bridge answer records 0; any other answer records its own value |
| Store.RecordedDelay | src/containers/Proxies/components/Proxy/index.tsx:47-69 | the delay a speed test records; `RecordedDelayZeroIff` states its value for every probe reply |
| Store.Recorded | src/containers/Proxies/components/Proxy/index.tsx:70-78 | the store after a speed test; `RecordedAppendsToFirstMatch` and `RecordedOtherwiseUnchanged` state its contents |
| Store.FirstNamed | src/containers/Proxies/components/Proxy/index.tsx:71 | the index found is the first proxy with the name; none only when no proxy has it |
| Store.FindProxy | src/containers/Proxies/components/Proxy/index.tsx:71 | the search loop returns the first index with the name, or none |
| Store.RecordedAppendsToFirstMatch | src/containers/Proxies/components/Proxy/index.tsx:70-78 | one sample is appended to the first matching proxy; its earlier samples and other fields and all other proxies are unchanged; the store holds exactly one more sample; the new sample is the shown delay |
| Store.RecordedOtherwiseUnchanged | src/containers/Proxies/components/Proxy/index.tsx:70-78 | with no matching proxy, or one without a history, the store is unchanged |
| Store.FailedProbeShowsError | src/containers/Proxies/components/Proxy/index.tsx:62-78 | after a failed probe or an empty bridge answer, the updated entry shows an error |
| Store.ProxyStore.SpeedTest | src/containers/Proxies/components/Proxy/index.tsx:62-81 | the new store is the old one with the normalised delay appended at the given time to the first proxy with the name; the outcome says which case happened |

## Left out

- Rendering: JSX, `classnames`, styling and SCSS. Only the decisions behind them are modelled (`Display.View`).
- React hooks (`useMemo`, `useCallback`, `useLayoutEffect`) and the speed-notify event-bus subscription. A speed test is one explicit call of `ProxyStore.SpeedTest`.
- Network calls (`changeProxySelected`, `getConnections`, `closeConnection`, `getProxyDelay`, the desktop bridge). Their replies are inputs: a flag for the change request, an optional snapshot, and a `Probe` value. The failure of a close call is not modelled, because the widget only awaits the closes.
- Concurrency of the `Promise.all` fan-out of closes. The closes are the ordered call list.
- `markProxySelected` and the store's internals are not part of this model. The handler only records the `MarkProxySelected` call, and the draft is a plain sequence of proxy records.
- Display.IsCurrent, Display.Render, Selection.HandleChangeProxySelected, Selection.OnClick: these require at least one group. With no groups the source throws a `TypeError` when it reads `groups[0]`, both while rendering and in the click handler. That failure is not modelled.
- Timestamps from `Date.now()`: the time is an opaque string parameter.
- Delays are integers. Fractional or `NaN` delays are not modelled; a `NaN` delay would find no colour.
- Display.Label: a delay is an exact integer here, while the source's delay is a double. Above 2^53 the source's `${}` prints the shortest digits that read back as that double, padded with zeros (2^60 prints as `1152921504606847000`), and from 10^21 on it prints an exponent form (`1e+21`). The model prints every digit of the integer.
- Store.ProxyStore.SpeedTest: pushing to an absent history throws a `TypeError` in the source. The model returns `MissingHistory` and leaves the store unchanged, as the aborted draft would.
- The history bound and the backend controller (registry, bounded-concurrency prober, group selector, connection tracker) have no code in this widget.

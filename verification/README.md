# Dashboard view-state model

A Dafny model of the client-side view state of a live metrics dashboard (a
React component tree fed by a socket.io `FromAPI` event). The `App`
component holds two fields, the latest data snapshot and the name of the
principal (featured) metric; every render derives from them a loading flag,
a list of tiles, a featured main tile, and labels produced by the camelCase
rewrite `transformKey`. `MainTile` keeps one flag of its own, whether its
detail modal is open.

Modules:

- `Wrappers`: `Option`, standing for JavaScript's `null` / `undefined`.
- `Labels`: `transformKey` as a recursive function over `string`, with an
  independent characterisation. A boundary is a lowercase letter followed by
  an uppercase one. Each input character lands at its index plus the number of
  earlier boundaries. Each boundary is followed by one space, and nothing else
  is added. The module also proves the length law, the fixed points and
  idempotence.
- `Snapshots`: a snapshot is the object's entries in `Object.keys` order,
  with distinct names. The value type is a parameter, because values are only
  looked up and displayed. `Lookup` is the property access `data[key]`, and
  a missing key gives `None`.
- `App`: the state, the constructor's initial state, and React's
  `setState(updater)`. An updater's `null` becomes `NoChange`; a partial
  state is shallow-merged. On top of these sit `updatePrincipal`, the body of
  the `FromAPI` listener, and runs of interleaved events.
- `View`: `isLoading`, `DataList`'s tiles, `DataTile`'s click guard and
  heading, `MainTile`'s content, and `showModal`.
- `Scenarios`: concrete examples. These are the labels of typical metric names
  (`PlainLabel`, `CamelLabel`, `AdjacentBoundaries`) and sessions with integer
  values (`Session`, `StalePrincipal`).

The placeholder snapshot `FAKE_DATA` comes from a constants file that is not
part of this model. It is a parameter `fake` of the view functions.

## Model

| member | source | states |
|---|---|---|
| Labels.TransformKey | session1/challenge/client/src/js/components/container/App.js:13 | the label is as long as the name plus its number of lowercase-to-uppercase boundaries, and starts with the name's first character |
| Labels.TransformKeyKeepsCharacters | session1/challenge/client/src/js/components/container/App.js:13 | every character of the name appears, in order, at its index shifted by the number of earlier boundaries |
| Labels.TransformKeySpacesBoundaries | session1/challenge/client/src/js/components/container/App.js:13 | directly after each boundary character of the name, the label holds one inserted space |
| Labels.TransformKeyAddsNothingElse | session1/challenge/client/src/js/components/container/App.js:13 | every position of the label is a name character or the space after a boundary; nothing else is added |
| Labels.NoBoundaryUnchanged | session1/challenge/client/src/js/components/container/App.js:13 | a name with no lowercase-to-uppercase boundary (such as `temperature`) is its own label |
| Labels.FixedIffNoBoundary | session1/challenge/client/src/js/components/container/App.js:13 | the rewrite leaves a name unchanged if and only if the name has no boundary |
| Labels.TransformKeyLeavesNoBoundary | session1/challenge/client/src/js/components/container/App.js:13 | a label has no boundary left, because the inserted space is neither lowercase nor uppercase |
| Labels.TransformKeyIdempotent | session1/challenge/client/src/js/components/container/App.js:13 | rewriting a label again gives the same label |
| Scenarios.CamelLabel | session1/challenge/client/src/js/components/container/App.js:13 | `windSpeed` becomes `wind Speed` |
| Scenarios.AdjacentBoundaries | session1/challenge/client/src/js/components/container/App.js:13 | the lookahead does not consume the uppercase letter, so `aBcD` becomes `a Bc D` |
| Snapshots.Lookup | session1/challenge/client/src/js/components/container/App.js:96 | looking up a name gives the value stored under it, and gives absent exactly when the name is not a key of the snapshot |
| App.InitialState | session1/challenge/client/src/js/components/container/App.js:136-139 | the constructor's state has no data and the principal `temperature` |
| App.UpdatePrincipal | session1/challenge/client/src/js/components/container/App.js:143-151 | afterwards the principal is the given name, which is not checked against the data, and the data are untouched; when the name already is the principal, the updater's `null` leaves the whole state unchanged |
| App.UpdatePrincipalIdempotent | session1/challenge/client/src/js/components/container/App.js:143-151 | selecting the same name twice gives the same state as selecting it once |
| App.ReceiveFeed | session1/challenge/client/src/js/components/container/App.js:156-164 | a falsy message leaves the state unchanged; a truthy one replaces the data by the message's `data` field, which may be absent, and keeps the principal |
| App.ReplaceNotMerge | session1/challenge/client/src/js/components/container/App.js:156-164 | after two truthy messages the data are exactly the second message's, so no entry of the first survives, and nothing else changed |
| App.RunIsLatest | session1/challenge/client/src/js/components/container/App.js:143-164 | after any interleaving of messages and selections, the data are those of the last truthy message and the principal is the last selected name |
| View.LoadingAfterFeed | session1/challenge/client/src/js/components/container/App.js:113 | the constructor's state is loading; after a message the view is loading exactly when a truthy message had no data, or a falsy one came while loading |
| View.LoadingIffDataAbsent | session1/challenge/client/src/js/components/container/App.js:113 | the main tile shows the loading text exactly while the data are absent, and every rendered tile carries that same flag |
| View.Tiles | session1/challenge/client/src/js/components/container/App.js:36-46 | one tile per entry, in order, with the entry's name and value and the given loading flag, active exactly when its name is the principal |
| View.DataList | session1/challenge/client/src/js/components/container/App.js:34-47 | while loading, the tiles are the placeholder entries; otherwise there is one tile per snapshot entry in order; every tile carries the loading flag and is active if and only if its name is the principal |
| View.ActiveTile | session1/challenge/client/src/js/components/container/App.js:43 | at most one tile is active, and some tile is active exactly when the principal is one of the rendered names |
| View.ClickTile | session1/challenge/client/src/js/components/container/App.js:26 | clicking a loading tile changes nothing; clicking any other tile makes its name the principal and keeps the data |
| View.ClickWhileLoadingIgnored | session1/challenge/client/src/js/components/container/App.js:26 | while loading, no click on a rendered tile changes the state |
| View.ClickSelectsTile | session1/challenge/client/src/js/components/container/App.js:21-47 | with data present, clicking a tile keeps the list's names and values, makes that tile the only active one, and features its value |
| View.Heading | session1/challenge/client/src/js/components/container/App.js:28 | a loading tile has an empty heading; otherwise the heading is exactly the rewritten name, so it has the rewrite's length and no boundary left |
| View.MainContent | session1/challenge/client/src/js/components/container/App.js:85-99 | the main tile shows the loading text exactly while loading; otherwise it shows the rewritten principal and the principal's value, absent rather than an error when the principal is not a key |
| View.MainContentMatchesActiveTile | session1/challenge/client/src/js/components/container/App.js:86-98 | with data present, the featured heading and value are those of the active tile, and the value is absent exactly when no tile is active |
| View.ShowModal | session1/challenge/client/src/js/components/container/App.js:79-83 | `showModal` flips the open flag |
| View.ShowModalParity | session1/challenge/client/src/js/components/container/App.js:70-83 | the modal starts closed and is open after n calls exactly when n is odd; from any flag, two calls restore it |
| Scenarios.Session | session1/challenge/client/src/js/components/container/App.js:132-164 | from the constructor: loading; after `{temperature: 20, humidity: 50}`, temperature is featured among two tiles; selecting humidity features 50 and makes only that tile active; a `null` message then changes nothing |
| Scenarios.StalePrincipal | session1/challenge/client/src/js/components/container/App.js:96 | with data `{a: 1}` and principal `b`, the featured value is absent |

## Left out

- The socket connection (`socketIOClient(ENDPOINT)` in `componentDidMount`, App.js line 154) is network I/O through an external library. Only the listener's body is modelled. Messages arrive as `Event` values.
- The contents of `FAKE_DATA` and `ENDPOINT` live in a constants file that is not part of this model. `FAKE_DATA` is the parameter `fake`.
- All JSX rendering, styled components, and the DOM portals `MagicModal`, `MagicPortal` and `InformationModal` are UI framework calls. The same goes for the presentational `Container` component (session1/react15/src/js/components/presentational/Container.js), which is CSS and markup only.
- `componentDidCatch` and its `console.log` (App.js lines 74-77) are error-boundary plumbing, and the `hasErrors` flag they set is never read.
- `mainContent` in `Information` (App.js line 114) is computed but never used, so it is not modelled.
- React may batch and defer `setState`. The model applies updaters one at a time, each to the state the previous one produced, and that is what React guarantees for updater functions.
- Snapshots.Lookup: finds own keys only. In JavaScript, `data[principal]` for an inherited name such as `constructor` yields a prototype property rather than `undefined`.
- A snapshot's entries are taken to be in `Object.keys` order already. JavaScript lists integer-like keys first, in ascending order, and that reordering is not modelled.
- A message's `data` field is modelled as absent or an object. A falsy non-object such as `0` behaves like absent, which the model covers. A truthy non-object such as a string is not modelled.

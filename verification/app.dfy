/**
 The state of the `App` component (App.js lines 132-165): the latest snapshot
 and the name of the principal (featured) metric. React applies a state
 updater by shallow-merging the partial state it returns; an updater that
 returns `null` leaves the state alone. Both handlers of the component are
 modelled that way: `updatePrincipal` and the body of the `FromAPI` listener.
 The socket that delivers the listener's messages is not modelled.
 */
module App {
  import opened Wrappers
  import opened Snapshots

  /** `data` is `null` until the first snapshot arrives; `principal` is the featured metric name. */
  datatype State<V> = State(data: Option<Snapshot<V>>, principal: string)

  /** The principal chosen by the constructor. */
  const DefaultPrincipal: string := "temperature"

  /** The constructor's state: no data yet, `temperature` featured. */
  function Initial<V>(): State<V> {
    State(None, DefaultPrincipal)
  }

  /** The constructor's state has no data and features `temperature`. */
  lemma InitialState<V>()
    ensures Initial<V>().data == None
    ensures Initial<V>().principal == "temperature"
  {
  }

  /** What a state updater returns: `null`, or a partial state naming one field. */
  datatype Patch<V> = NoChange | SetPrincipal(principal: string) | SetData(data: Option<Snapshot<V>>)

  /** React's `setState` with an updater: a shallow merge of the returned fields into the state. */
  function Merge<V>(st: State<V>, p: Patch<V>): State<V> {
    match p
    case NoChange => st
    case SetPrincipal(k) => st.(principal := k)
    case SetData(d) => st.(data := d)
  }

  /** The updater of `updatePrincipal(value)`: `null` when `value` is already the principal. */
  function PrincipalUpdater<V>(value: string, prev: State<V>): Patch<V> {
    if value == prev.principal then NoChange else SetPrincipal(value)
  }

  /**
   `updatePrincipal(value)`. Whichever branch the updater takes, afterwards
   `value` is the principal and the data are untouched; `value` is not checked
   against the snapshot's names.
   */
  function UpdatePrincipal<V>(st: State<V>, value: string): (r: State<V>)
    ensures r.principal == value
    ensures r.data == st.data
    ensures value == st.principal ==> r == st
  {
    Merge(st, PrincipalUpdater(value, st))
  }

  /** A `FromAPI` message: `None` is a falsy message, `Some` a truthy one whose `data` field may be absent. */
  datatype Payload<V> = Payload(data: Option<Snapshot<V>>)

  /** The updater inside the `FromAPI` listener: `{ data: data.data }` on a truthy message, else `null`. */
  function FeedUpdater<V>(message: Option<Payload<V>>): Patch<V> {
    match message
    case Some(p) => SetData(p.data)
    case None => NoChange
  }

  /**
   The `FromAPI` listener. A falsy message changes nothing; a truthy one replaces
   the data wholesale by its `data` field (possibly absent) and keeps the principal.
   */
  function ReceiveFeed<V>(st: State<V>, message: Option<Payload<V>>): (r: State<V>)
    ensures message.None? ==> r == st
    ensures message.Some? ==> r.data == message.value.data && r.principal == st.principal
  {
    Merge(st, FeedUpdater(message))
  }

  /** Selecting the same metric twice is selecting it once. */
  lemma UpdatePrincipalIdempotent<V>(st: State<V>, k: string)
    ensures UpdatePrincipal(UpdatePrincipal(st, k), k) == UpdatePrincipal(st, k)
  {
  }

  /** Two truthy messages in a row leave exactly the second one's data: nothing of the first survives. */
  lemma ReplaceNotMerge<V>(st: State<V>, p1: Payload<V>, p2: Payload<V>)
    ensures ReceiveFeed(ReceiveFeed(st, Some(p1)), Some(p2)) == st.(data := p2.data)
  {
  }

  /** One event reaching the component: a feed message, or a call of `updatePrincipal`. */
  datatype Event<V> = Feed(message: Option<Payload<V>>) | Select(key: string)

  /** Apply one event; the two handlers run one at a time, each to completion. */
  function Step<V>(st: State<V>, e: Event<V>): State<V> {
    match e
    case Feed(m) => ReceiveFeed(st, m)
    case Select(k) => UpdatePrincipal(st, k)
  }

  /** Apply a sequence of events in order. */
  function Run<V>(st: State<V>, events: seq<Event<V>>): State<V>
    decreases |events|
  {
    if |events| == 0 then st else Run(Step(st, events[0]), events[1..])
  }

  /** The data field of the last truthy message among `events`, or `initial` when there is none. */
  function LatestData<V>(events: seq<Event<V>>, initial: Option<Snapshot<V>>): Option<Snapshot<V>> {
    if |events| == 0 then initial
    else
      match events[|events| - 1]
      case Feed(Some(p)) => p.data
      case _ => LatestData(events[..|events| - 1], initial)
  }

  /** The key of the last selection among `events`, or `initial` when there is none. */
  function LatestSelection<V>(events: seq<Event<V>>, initial: string): string {
    if |events| == 0 then initial
    else
      match events[|events| - 1]
      case Select(k) => k
      case _ => LatestSelection(events[..|events| - 1], initial)
  }

  /** Running events and then one more is stepping the run's end state. */
  lemma {:induction false} RunSnoc<V>(st: State<V>, events: seq<Event<V>>, e: Event<V>)
    ensures Run(st, events + [e]) == Step(Run(st, events), e)
    decreases |events|
  {
    if |events| > 0 {
      assert (events + [e])[1..] == events[1..] + [e];
      RunSnoc(Step(st, events[0]), events[1..], e);
    }
  }

  /**
   After any interleaving of messages and selections, the data are those of the
   last truthy message and the principal is the last selected key: the two
   handlers never interfere with each other's field.
   */
  lemma {:induction false} RunIsLatest<V>(st: State<V>, events: seq<Event<V>>)
    ensures Run(st, events).data == LatestData(events, st.data)
    ensures Run(st, events).principal == LatestSelection(events, st.principal)
    decreases |events|
  {
    if |events| > 0 {
      var init := events[..|events| - 1];
      var e := events[|events| - 1];
      assert events == init + [e];
      RunSnoc(st, init, e);
      RunIsLatest(st, init);
    }
  }
}

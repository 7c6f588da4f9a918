/**
 What the dashboard derives from the `App` state on each render (App.js lines
 21-130): the loading flag of `Information`, the tile list of `DataList`, the
 click guard and heading of `DataTile`, the content of `MainTile`, and
 `MainTile`'s own one-flag modal state. Rendering itself is not modelled.
 */
module View {
  import opened Wrappers
  import opened Snapshots
  import opened Labels
  import opened App

  /** `isLoading = !data`: the view is loading exactly while there is no snapshot. */
  predicate IsLoading<V>(st: State<V>) {
    st.data.None?
  }

  /**
   The constructor's state is loading; a truthy message without a `data` field
   brings the view back to loading, one with data ends it, and a falsy message
   leaves the flag as it was.
   */
  lemma LoadingAfterFeed<V>(st: State<V>, message: Option<Payload<V>>)
    ensures IsLoading(Initial<V>())
    ensures IsLoading(ReceiveFeed(st, message)) <==>
      (if message.Some? then message.value.data.None? else IsLoading(st))
  {
  }

  /**
   The loading flag decides what is shown: the main tile shows the loading text
   exactly while loading, and every rendered tile carries the flag.
   */
  lemma LoadingIffDataAbsent<V>(st: State<V>, fake: Snapshot<V>)
    ensures IsLoading(st) <==> MainContent(st) == LoadingText
    ensures forall i :: 0 <= i < |DataList(st, fake)| ==> DataList(st, fake)[i].loading == (st.data == None)
  {
  }

  /** One rendered `DataTile`: its props. */
  datatype Tile<V> = Tile(name: string, value: V, loading: bool, active: bool)

  /** One tile per entry of `items`, in order, marked active when its name is `principal`. */
  function Tiles<V>(items: seq<(string, V)>, loading: bool, principal: string): (tiles: seq<Tile<V>>)
    ensures |tiles| == |items|
    ensures forall i :: 0 <= i < |items| ==>
      tiles[i].name == items[i].0 && tiles[i].value == items[i].1 && tiles[i].loading == loading
    ensures forall i :: 0 <= i < |items| ==> (tiles[i].active <==> items[i].0 == principal)
  {
    if |items| == 0 then []
    else [Tile(items[0].0, items[0].1, loading, items[0].0 == principal)] + Tiles(items[1..], loading, principal)
  }

  /** The entries `DataList` renders: the placeholder data while loading, the snapshot otherwise. */
  function Items<V>(st: State<V>, fake: Snapshot<V>): Snapshot<V> {
    if IsLoading(st) then fake else st.data.value
  }

  /**
   `DataList`: the placeholder entries `fake` (the `FAKE_DATA` constant) while
   loading, otherwise one tile per entry of the snapshot in order; in both
   cases a tile is active exactly when its name is the principal.
   */
  function DataList<V>(st: State<V>, fake: Snapshot<V>): (tiles: seq<Tile<V>>)
    ensures IsLoading(st) ==> (|tiles| == |fake| &&
      forall i :: 0 <= i < |fake| ==> tiles[i].name == fake[i].0 && tiles[i].value == fake[i].1)
    ensures !IsLoading(st) ==> (|tiles| == |st.data.value| &&
      forall i :: 0 <= i < |tiles| ==> tiles[i].name == st.data.value[i].0 && tiles[i].value == st.data.value[i].1)
    ensures forall i :: 0 <= i < |tiles| ==> tiles[i].loading == IsLoading(st)
    ensures forall i :: 0 <= i < |tiles| ==> (tiles[i].active <==> tiles[i].name == st.principal)
  {
    Tiles(Items(st, fake), IsLoading(st), st.principal)
  }

  /**
   Because names are distinct, at most one tile is active, and some tile is
   active exactly when the principal is one of the rendered names.
   */
  lemma ActiveTile<V>(st: State<V>, fake: Snapshot<V>)
    ensures forall i, j :: 0 <= i < j < |DataList(st, fake)| ==>
      !(DataList(st, fake)[i].active && DataList(st, fake)[j].active)
    ensures (exists i :: 0 <= i < |DataList(st, fake)| && DataList(st, fake)[i].active) <==>
      st.principal in Keys(Items(st, fake))
  {
    var tiles := DataList(st, fake);
    var items := Items(st, fake);
    if st.principal in Keys(items) {
      var i :| 0 <= i < |items| && Keys(items)[i] == st.principal;
      assert tiles[i].active;
    }
  }

  /** `DataTile`'s click handler `!loading && onClick(name)`: a loading tile never reaches `updatePrincipal`. */
  function ClickTile<V>(st: State<V>, t: Tile<V>): (r: State<V>)
    ensures t.loading ==> r == st
    ensures !t.loading ==> r.principal == t.name && r.data == st.data
  {
    if t.loading then st else UpdatePrincipal(st, t.name)
  }

  /** The heading of a tile: empty while loading, the rewritten name otherwise. */
  function Heading<V>(t: Tile<V>): (h: string)
    ensures t.loading ==> h == ""
    ensures !t.loading ==> h == TransformKey(t.name)
    ensures !t.loading ==> |h| == |t.name| + Boundaries(t.name) && HasNoBoundary(h)
  {
    if t.loading then ""
    else
      TransformKeyLeavesNoBoundary(t.name);
      TransformKey(t.name)
  }

  /** What `MainTile` shows: "Loading...", or the principal's heading and its looked-up value. */
  datatype Content<V> = LoadingText | Featured(heading: string, value: Option<V>)

  /**
   `MainTile`'s content. While loading it is the loading text; otherwise the
   heading is the rewritten principal and the value is the principal's entry
   in the snapshot, absent (not an error) when the principal is not a name.
   */
  function MainContent<V>(st: State<V>): (c: Content<V>)
    ensures c.LoadingText? <==> IsLoading(st)
    ensures c.Featured? ==> c.heading == TransformKey(st.principal)
    ensures c.Featured? ==> (c.value.None? <==> st.principal !in Keys(st.data.value))
    ensures c.Featured? ==> forall i :: 0 <= i < |st.data.value| && st.data.value[i].0 == st.principal ==>
      c.value == Some(st.data.value[i].1)
  {
    if IsLoading(st) then LoadingText
    else Featured(TransformKey(st.principal), Lookup(st.data.value, st.principal))
  }

  /**
   Once data are present, the main tile and the tile list agree: the featured
   value is the value of the active tile, and it is absent exactly when no
   tile is active.
   */
  lemma {:induction false} MainContentMatchesActiveTile<V>(st: State<V>, fake: Snapshot<V>)
    requires !IsLoading(st)
    ensures forall i :: 0 <= i < |DataList(st, fake)| && DataList(st, fake)[i].active ==>
      MainContent(st) == Featured(Heading(DataList(st, fake)[i]), Some(DataList(st, fake)[i].value))
    ensures MainContent(st).value.None? <==>
      forall i :: 0 <= i < |DataList(st, fake)| ==> !DataList(st, fake)[i].active
  {
    ActiveTile(st, fake);
  }

  /**
   Clicking a rendered tile once data are present makes that tile the only
   active one on the next render and features its value.
   */
  lemma ClickSelectsTile<V>(st: State<V>, fake: Snapshot<V>, i: nat)
    requires !IsLoading(st) && i < |DataList(st, fake)|
    ensures var st' := ClickTile(st, DataList(st, fake)[i]);
      && |DataList(st', fake)| == |DataList(st, fake)|
      && (forall j :: 0 <= j < |DataList(st', fake)| ==>
            DataList(st', fake)[j] == DataList(st, fake)[j].(active := j == i))
      && MainContent(st') == Featured(TransformKey(DataList(st, fake)[i].name), Some(DataList(st, fake)[i].value))
  {
  }

  /** While loading, no click on any rendered tile changes the state. */
  lemma ClickWhileLoadingIgnored<V>(st: State<V>, fake: Snapshot<V>)
    requires IsLoading(st)
    ensures forall i :: 0 <= i < |DataList(st, fake)| ==> ClickTile(st, DataList(st, fake)[i]) == st
  {
  }

  /** `MainTile`'s own state: whether the detail modal is open. */
  datatype Modal = Modal(open: bool)

  /** `MainTile`'s constructor: the modal starts closed. */
  const InitialModal: Modal := Modal(false)

  /** `showModal`: the updater negates `open`. */
  function ShowModal(m: Modal): (r: Modal)
    ensures r.open != m.open
  {
    Modal(!m.open)
  }

  /** `showModal` called `n` times in a row. */
  function ShowModalTimes(m: Modal, n: nat): Modal {
    if n == 0 then m else ShowModal(ShowModalTimes(m, n - 1))
  }

  /**
   After `n` calls the flag has flipped exactly when `n` is odd; two calls
   restore it; from the constructor's closed modal, it is open after `n` calls
   exactly when `n` is odd.
   */
  lemma {:induction false} ShowModalParity(m: Modal, n: nat)
    ensures ShowModalTimes(m, n).open == (m.open != (n % 2 == 1))
    ensures ShowModalTimes(m, 2) == m
    ensures ShowModalTimes(InitialModal, n).open <==> n % 2 == 1
  {
    if n > 0 {
      ShowModalParity(m, n - 1);
    }
  }
}

/**
 Concrete walk-throughs of the dashboard with numeric metric values: labels of
 typical metric names, and a session from the constructor through a first
 snapshot, a selection and a falsy message.
 */
module Scenarios {
  import opened Wrappers
  import opened Snapshots
  import opened Labels
  import opened App
  import opened View

  /** A name without a boundary keeps its label. */
  lemma PlainLabel()
    ensures TransformKey("temperature") == "temperature"
  {
    assert HasNoBoundary("temperature");
    NoBoundaryUnchanged("temperature");
  }

  /** A camel-case name is split at its boundary. */
  lemma CamelLabel()
    ensures TransformKey("windSpeed") == "wind Speed"
  {
    NoBoundaryUnchanged("Speed");
    assert TransformKey("dSpeed") == "d " + "Speed";
    assert TransformKey("ndSpeed") == "n" + "d Speed";
    assert TransformKey("indSpeed") == "i" + "nd Speed";
  }

  /** Back-to-back boundaries each receive their own space. */
  lemma AdjacentBoundaries()
    ensures TransformKey("aBcD") == "a Bc D"
  {
    assert TransformKey("D") == "D";
    assert TransformKey("cD") == "c D";
    assert TransformKey("BcD") == "Bc D";
  }

  /** The snapshot `{temperature: 20, humidity: 50}`. */
  function Weather(): Snapshot<int> {
    [("temperature", 20), ("humidity", 50)]
  }

  /**
   From the constructor: loading; after `{data: {temperature: 20, humidity: 50}}`
   the temperature is featured among two tiles; selecting humidity features it
   and moves the active mark; a `null` message then changes nothing.
   */
  lemma Session(fake: Snapshot<int>)
    ensures IsLoading(Initial<int>())
    ensures var s1 := ReceiveFeed(Initial<int>(), Some(Payload(Some(Weather()))));
      && !IsLoading(s1)
      && MainContent(s1) == Featured("temperature", Some(20))
      && |DataList(s1, fake)| == 2
    ensures var s2 := UpdatePrincipal(ReceiveFeed(Initial<int>(), Some(Payload(Some(Weather())))), "humidity");
      && MainContent(s2) == Featured("humidity", Some(50))
      && DataList(s2, fake) == [Tile("temperature", 20, false, false), Tile("humidity", 50, false, true)]
      && ReceiveFeed(s2, None) == s2
  {
    var s1 := ReceiveFeed(Initial<int>(), Some(Payload(Some(Weather()))));
    var s2 := UpdatePrincipal(s1, "humidity");
    PlainLabel();
    assert HasNoBoundary("humidity");
    NoBoundaryUnchanged("humidity");
    assert Keys(Weather()) == ["temperature", "humidity"];
  }

  /** A stale principal degrades to an absent value: `{a: 1}` with principal `b`. */
  lemma StalePrincipal()
    ensures MainContent(State(Some([("a", 1)]), "b")) == Featured("b", None)
  {
    assert HasNoBoundary("b");
    NoBoundaryUnchanged("b");
  }
}

/** The grid memory's event log and the listeners that react to it. Events are the
    dictionaries the page actions build; appending one notifies every registered
    listener in registration order, synchronously, and the block-selected listener
    answers a "block_selected" event by appending a "selectbox_created" event of its
    own before the remaining listeners run. A listener that raises stops the
    notification, and the events appended until then stay in the log. */
module Events {
  import opened PyOps
  import opened Calc
  import opened Blocks

  /** Grid width, grid height, and the components offered in a selection box. */
  const GridColumns: int := 10
  const GridRows: int := 6
  const Models: seq<string> := ["amplifier", "filter-bp", "filter-hp", "filter-lp", "mixer", "oscillator"]

  /** The values an event dictionary holds. */
  datatype Value = VStr(s: string) | VInt(i: int) | VBlocks(blocks: seq<Block>)

  /** An event: a dictionary from field name to value. */
  type Event = map<string, Value>

  /** The event a page action emits: its type under "event_type", merged with its
      parameters, a parameter of the same name taking precedence. */
  function EventData(eventType: string, parameters: Event): (e: Event)
    ensures e.Keys == parameters.Keys + {"event_type"}
    ensures forall k :: k in parameters ==> e[k] == parameters[k]
    ensures "event_type" !in parameters ==> e["event_type"] == VStr(eventType)
  {
    map["event_type" := VStr(eventType)] + parameters
  }

  /** A new block `id` offering component `name` for a click on block `clicked`. */
  function Marked(id: int, clicked: int, name: string, assets: Assets): Block
  {
    ToSelect(NewBlock(id, assets), clicked, name, assets)
  }

  /** The selection box blocks for a click on block `clicked`: block `ids[i]` offers
      `models[i]`, for as many positions as both lists have. */
  function MarkBlocks(ids: seq<int>, models: seq<string>, clicked: int, assets: Assets): (r: seq<Block>)
    decreases |ids|
    ensures |r| == if |ids| < |models| then |ids| else |models|
    ensures forall i :: 0 <= i < |r| ==> r[i] == Marked(ids[i], clicked, models[i], assets)
  {
    if |ids| == 0 then []
    else
      var init := ids[..|ids| - 1];
      var prev := MarkBlocks(init, models, clicked, assets);
      var i := |ids| - 1;
      assert forall j :: 0 <= j < |prev| ==> init[j] == ids[j];
      if i < |models| then prev + [Marked(ids[i], clicked, models[i], assets)]
      else prev
  }

  /** The blocks to mark when block `clicked` is selected: the selection box of the
      ten-column grid for the six components. */
  function BlocksToMark(clicked: int, assets: Assets): (r: seq<Block>)
    ensures |r| == |Models|
    ensures forall i :: 0 <= i < |r| ==>
      && r[i].id == SelectBoxBlockNumbers(clicked, GridColumns, |Models|).value[i]
      && r[i].kind == "select" && r[i].cssClass == SelectClass
      && r[i].model == assets.figure(Models[i])
      && r[i].hx == assets.hx(HxSelect, HxParams(clicked, Some(Models[i])))
  {
    var box := SelectBoxBlockNumbers(clicked, GridColumns, |Models|).value;
    MarkBlocks(box, Models, clicked, assets)
  }

  /** The marked ids are the clicked block, the two after it, and the same three one
      grid row further on; nothing keeps them inside the grid. */
  lemma BlocksToMarkIds(clicked: int, assets: Assets)
    ensures var r := BlocksToMark(clicked, assets);
      |r| == 6
      && r[0].id == clicked && r[1].id == clicked + 1 && r[2].id == clicked + 2
      && r[3].id == clicked + GridColumns && r[4].id == clicked + GridColumns + 1
      && r[5].id == clicked + GridColumns + 2
  {
  }

  /** A click in the bottom row marks blocks past the last block of the grid. */
  lemma BottomRowMarksOutsideGrid(clicked: int, assets: Assets)
    requires GridColumns * (GridRows - 1) <= clicked < GridColumns * GridRows
    ensures BlocksToMark(clicked, assets)[3].id >= GridColumns * GridRows
  {
  }

  /** The registered listeners. */
  datatype Listener = BlockSelectedListener | ComponentAddedListener

  /** The grid memory: its blocks, its event log and its listeners. */
  datatype Memory = Memory(id: string, blocks: seq<Block>, events: seq<Event>, listeners: seq<Listener>)

  /** The memory after an update, and the exception that escaped it, if any. */
  datatype Outcome = Outcome(memory: Memory, raised: Option<PyError>)

  /** True when `e`'s type field is present and equal to `t`. */
  predicate HasType(e: Event, t: string)
  {
    "event_type" in e && e["event_type"] == VStr(t)
  }

  /** How many levels of listener reaction an event can set off. */
  function Depth(e: Event): nat
  {
    if HasType(e, "block_selected") then 1 else 0
  }

  /** The event the block-selected listener appends for a click on `clicked`. */
  function SelectboxCreated(clicked: int, assets: Assets): (e: Event)
    ensures HasType(e, "selectbox_created") && Depth(e) == 0
    ensures e.Keys == {"event_type", "block_id", "select_box"}
    ensures e["block_id"] == VInt(clicked) && e["select_box"] == VBlocks(BlocksToMark(clicked, assets))
  {
    map["event_type" := VStr("selectbox_created"), "block_id" := VInt(clicked),
        "select_box" := VBlocks(BlocksToMark(clicked, assets))]
  }

  /** True when `after` holds `before`'s blocks, id and listeners. */
  predicate SameGrid(before: Memory, after: Memory)
  {
    after.id == before.id && after.blocks == before.blocks && after.listeners == before.listeners
  }

  /** Appends `e` to the log, then notifies the listeners. */
  function UpdateMemory(m: Memory, e: Event, assets: Assets): (r: Outcome)
    decreases Depth(e), |m.listeners| + 1
    ensures SameGrid(m, r.memory)
    ensures |m.events| < |r.memory.events|
    ensures r.memory.events[..|m.events| + 1] == m.events + [e]
  {
    var appended := m.(events := m.events + [e]);
    var r := Notify(appended, e, 0, assets);
    assert r.memory.events[..|appended.events|] == appended.events;
    r
  }

  /** Notifies listeners `i` onwards of `e`, stopping at the first that raises. */
  function Notify(m: Memory, e: Event, i: nat, assets: Assets): (r: Outcome)
    requires i <= |m.listeners|
    decreases Depth(e), |m.listeners| - i
    ensures SameGrid(m, r.memory)
    ensures |m.events| <= |r.memory.events| && r.memory.events[..|m.events|] == m.events
  {
    if i == |m.listeners| then Outcome(m, None)
    else
      var o := OnMemoryUpdate(m.listeners[i], m, e, assets);
      if o.raised.Some? then o
      else
        var r := Notify(o.memory, e, i + 1, assets);
        assert r.memory.events[..|m.events|] == r.memory.events[..|o.memory.events|][..|m.events|];
        r
  }

  /** One listener's reaction to `e`, acting on the memory it was registered with. */
  function OnMemoryUpdate(l: Listener, m: Memory, e: Event, assets: Assets): (r: Outcome)
    decreases Depth(e), 0
    ensures SameGrid(m, r.memory)
    ensures |m.events| <= |r.memory.events| && r.memory.events[..|m.events|] == m.events
    ensures !HasType(e, "block_selected") ==> r.memory == m
  {
    if "event_type" !in e then Outcome(m, Some(KeyError("event_type")))
    else
      match l
      case BlockSelectedListener =>
        if !HasType(e, "block_selected") then Outcome(m, None)
        else if "block_id" !in e then Outcome(m, Some(KeyError("block_id")))
        else (
          match e["block_id"]
          case VInt(clicked) =>
            var r := UpdateMemory(m, SelectboxCreated(clicked, assets), assets);
            assert r.memory.events[..|m.events|] == r.memory.events[..|m.events| + 1][..|m.events|];
            r
          case _ => Outcome(m, Some(TypeError)))
      case ComponentAddedListener =>
        if !HasType(e, "component_added") then Outcome(m, None)
        else if "block_id" !in e then Outcome(m, Some(KeyError("block_id")))
        else if "component" !in e then Outcome(m, Some(KeyError("component")))
        else Outcome(m, None)
  }

  /** A page action: builds its event and hands it to the memory. */
  function Emit(eventType: string, parameters: Event, m: Memory, assets: Assets): (r: Outcome)
    ensures SameGrid(m, r.memory)
    ensures |m.events| < |r.memory.events|
    ensures r.memory.events[..|m.events| + 1] == m.events + [EventData(eventType, parameters)]
  {
    UpdateMemory(m, EventData(eventType, parameters), assets)
  }

  /** Selecting block `b` with the block-selected listener registered appends the
      selection event and, right after it, the selection box created for the same
      block; nothing is raised. */
  lemma BlockSelectedAppendsSelectbox(m: Memory, b: int, assets: Assets)
    requires m.listeners == [BlockSelectedListener]
    ensures Emit("block_selected", map["block_id" := VInt(b)], m, assets)
      == Outcome(m.(events := m.events + [EventData("block_selected", map["block_id" := VInt(b)]),
                                          SelectboxCreated(b, assets)]), None)
  {
    var e := EventData("block_selected", map["block_id" := VInt(b)]);
    var s := SelectboxCreated(b, assets);
    var m1 := m.(events := m.events + [e]);
    var m2 := m1.(events := m1.events + [s]);
    assert m2 == m.(events := m.events + [e, s]);
    assert OnMemoryUpdate(BlockSelectedListener, m2, s, assets) == Outcome(m2, None);
    assert Notify(m2, s, 1, assets) == Outcome(m2, None);
    assert UpdateMemory(m1, s, assets) == Outcome(m2, None);
    assert HasType(e, "block_selected") && e["block_id"] == VInt(b);
    assert OnMemoryUpdate(BlockSelectedListener, m1, e, assets) == Outcome(m2, None);
    assert Notify(m2, e, 1, assets) == Outcome(m2, None);
    assert Notify(m1, e, 0, assets) == Outcome(m2, None);
    assert UpdateMemory(m, e, assets) == Outcome(m2, None);
  }

  /** The same holds with both of the application's listeners registered, in the
      order it registers them. */
  lemma AppListenersOnBlockSelected(m: Memory, b: int, assets: Assets)
    requires m.listeners == [BlockSelectedListener, ComponentAddedListener]
    ensures Emit("block_selected", map["block_id" := VInt(b)], m, assets)
      == Outcome(m.(events := m.events + [EventData("block_selected", map["block_id" := VInt(b)]),
                                          SelectboxCreated(b, assets)]), None)
  {
    var e := EventData("block_selected", map["block_id" := VInt(b)]);
    var s := SelectboxCreated(b, assets);
    var m1 := m.(events := m.events + [e]);
    var m2 := m1.(events := m1.events + [s]);
    assert m2 == m.(events := m.events + [e, s]);
    NotifyQuiet(m2, s, 0, assets);
    assert UpdateMemory(m1, s, assets) == Outcome(m2, None);
    assert HasType(e, "block_selected") && e["block_id"] == VInt(b);
    assert !HasType(e, "component_added");
    assert OnMemoryUpdate(BlockSelectedListener, m1, e, assets) == Outcome(m2, None);
    assert OnMemoryUpdate(ComponentAddedListener, m2, e, assets) == Outcome(m2, None);
    assert Notify(m2, e, 2, assets) == Outcome(m2, None);
    assert Notify(m2, e, 1, assets) == Outcome(m2, None);
    assert Notify(m1, e, 0, assets) == Outcome(m2, None);
    assert UpdateMemory(m, e, assets) == Outcome(m2, None);
  }

  /** Selecting block `b` appends the selection event and then the selection box
      created for it, with nothing raised, for any registration in which the
      block-selected listener appears once, at position `i`, among component-added
      listeners. */
  lemma BlockSelectedWithListenerOnce(m: Memory, b: int, i: nat, assets: Assets)
    requires i < |m.listeners| && m.listeners[i] == BlockSelectedListener
    requires forall k :: 0 <= k < |m.listeners| && k != i ==> m.listeners[k] == ComponentAddedListener
    ensures Emit("block_selected", map["block_id" := VInt(b)], m, assets)
      == Outcome(m.(events := m.events + [EventData("block_selected", map["block_id" := VInt(b)]),
                                          SelectboxCreated(b, assets)]), None)
  {
    var e := EventData("block_selected", map["block_id" := VInt(b)]);
    var s := SelectboxCreated(b, assets);
    var m1 := m.(events := m.events + [e]);
    var m2 := m1.(events := m1.events + [s]);
    assert m2 == m.(events := m.events + [e, s]);
    assert HasType(e, "block_selected") && !HasType(e, "component_added") && e["block_id"] == VInt(b);
    NotifyQuiet(m2, s, 0, assets);
    assert UpdateMemory(m1, s, assets) == Outcome(m2, None);
    assert OnMemoryUpdate(BlockSelectedListener, m1, e, assets) == Outcome(m2, None);
    NotifySkipsComponentListeners(m1, e, 0, i, assets);
    NotifySkipsComponentListeners(m2, e, i + 1, |m.listeners|, assets);
    assert Notify(m1, e, i, assets) == Notify(m2, e, i + 1, assets);
    assert UpdateMemory(m, e, assets) == Outcome(m2, None);
  }

  /** Component-added listeners `i` up to `j` do nothing with an event of another type. */
  lemma {:induction false} NotifySkipsComponentListeners(m: Memory, e: Event, i: nat, j: nat, assets: Assets)
    requires i <= j <= |m.listeners|
    requires forall k :: i <= k < j ==> m.listeners[k] == ComponentAddedListener
    requires "event_type" in e && !HasType(e, "component_added")
    decreases j - i
    ensures Notify(m, e, i, assets) == Notify(m, e, j, assets)
  {
    if i < j {
      NotifySkipsComponentListeners(m, e, i + 1, j, assets);
    }
  }

  /** Any event whose type is not "block_selected" or "component_added" is appended
      alone, whatever listeners are registered. */
  lemma OtherEventsAppendOnly(m: Memory, e: Event, assets: Assets)
    requires "event_type" in e
    requires !HasType(e, "block_selected") && !HasType(e, "component_added")
    ensures UpdateMemory(m, e, assets) == Outcome(m.(events := m.events + [e]), None)
  {
    var m1 := m.(events := m.events + [e]);
    NotifyQuiet(m1, e, 0, assets);
  }

  /** An event without a type field is still appended, but the first listener
      raises KeyError on it and the listeners after it never run. */
  lemma UntypedEventRaises(m: Memory, e: Event, assets: Assets)
    requires "event_type" !in e
    requires |m.listeners| > 0
    ensures UpdateMemory(m, e, assets)
      == Outcome(m.(events := m.events + [e]), Some(KeyError("event_type")))
  {
    var m1 := m.(events := m.events + [e]);
    assert OnMemoryUpdate(m1.listeners[0], m1, e, assets) == Outcome(m1, Some(KeyError("event_type")));
  }

  /** Listeners `i` onwards do nothing with such an event. */
  lemma {:induction false} NotifyQuiet(m: Memory, e: Event, i: nat, assets: Assets)
    requires i <= |m.listeners|
    requires "event_type" in e
    requires !HasType(e, "block_selected") && !HasType(e, "component_added")
    decreases |m.listeners| - i
    ensures Notify(m, e, i, assets) == Outcome(m, None)
  {
    if i < |m.listeners| {
      NotifyQuiet(m, e, i + 1, assets);
    }
  }
}

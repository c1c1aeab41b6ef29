# Block grid core of cascader, in Dafny

cascader lays out signal-processing components, such as amplifiers, filters, mixers and
oscillators, on a grid of blocks 10 columns wide and 6 rows tall. Clicking an empty block emits a
`block_selected` event. The block-selected listener answers it by computing the *selection box*
for the clicked block and logging it as a `selectbox_created` event. The box is a rectangle of
blocks, three columns wide, with one block per component that can be placed, and its top-left
block is the block that was clicked. Nothing writes the box into the grid: the grid is returned
unchanged, and `refresh_blocks_from` has no caller. This project models the part of cascader
that is not web plumbing:

- `calc.py`: the grid arithmetic. It converts a linear block number to (column, row)
  coordinates and back, row-major. It also lists the block numbers covered by the
  selection box.
- `app.py`: the `Block` record and its state transitions (empty, select, component), and
  its CSS-class rule. It also covers refreshing the grid from a list of blocks, building page-action
  events, and the block-selected listener. Finally it covers the grid memory's
  append-only event log, including the listener's synchronous re-entry that logs a
  `selectbox_created` event.

Modules:

- `PyOps` (`pyops.dfy`): Python's floor division, floor `%` and ceiling division on
  integers. Also the Python exceptions the code can raise, and `Option`/`Result`.
- `Calc` (`calc.dfy`): `calc.py`.
- `Blocks` (`blocks.dfy`): `BlockType`/`Block` and their transitions.
- `Grid` (`grid.dfy`): `BlockGrid.refresh_blocks_from`.
- `Events` (`events.dfy`): `PageAction`, the two listeners, `BlockGridMemory.update_memory`.

Modelling choices:

- Everything is a pure function over immutable values. A method that mutates an object in
  place becomes a function that returns the new value.
- An exception becomes a `Result` error, or an `Outcome`/`Refreshed` value. That value
  carries whatever was already mutated when the exception escaped. For example, the event
  stays appended when a listener raises, and earlier blocks stay copied when
  `refresh_blocks_from` meets an id past the end.
- `get_block_coordinates` uses Python's `%` and `math.floor(n / c)`. These are modelled as
  exact floor division for every non-zero column count, negative counts included. A column
  count of zero raises `ZeroDivisionError`. The code does not check the column count or the
  option count, and the model follows the code. A negative option count gives
  `ceil(n/3) <= 0` rows, hence an empty box.
- The selection box is not clamped, as in the code. An anchor in one of the last two columns
  spills into the next row (`Calc.SelectBoxSpillsIntoNextRow`). A click in the bottom row
  marks ids past the last block (`Events.BottomRowMarksOutsideGrid`).
- Reading a component's SVG file (`Block.get_model`) and rendering an htmx template
  (`Block.get_hx`) are the two fields of an `Assets` value. Each is an arbitrary total
  function passed in as a parameter: `figure(name)` and `hx(kind, parameters)`.
- Event dictionaries are `map<string, Value>`. A merge `{"event_type": t, **parameters}` is
  map union, where a parameter named `event_type` wins, as in Python.

## Model

| member | source | states |
|---|---|---|
| `PyOps.FloorDiv` | calc.py:8 | the quotient is the floor of `a / b` for either sign of `b` |
| `PyOps.Mod` | calc.py:7 | `a == b * (a // b) + a % b`, and the remainder has the sign of `b` and is smaller than `b` in magnitude |
| `PyOps.CeilDiv` | calc.py:13 | `ceil(a / b)` for `b > 0`: the least `q` with `a <= b * q` |
| `Calc.BlockNumber` | calc.py:3-4 | `x + y * columns`, with no contract of its own; its meaning is stated by `Calc.NumberRoundTrip` and `Calc.CoordinatesRoundTrip` |
| `Calc.BlockCoordinates` | calc.py:6-9 | zero columns raise ZeroDivisionError; otherwise `x + y * columns == n`, and for positive columns `0 <= x < columns` (for negative ones `columns < x <= 0`) |
| `Calc.CoordinatesRoundTrip` | calc.py:3-9 | converting any block number to coordinates and back gives the same number, for any non-zero column count |
| `Calc.NumberRoundTrip` | calc.py:3-9 | a position whose column lies inside the grid is recovered exactly from its block number, for any row |
| `Calc.BoxRowCount` | calc.py:13-14 | the box height is `ceil(models / 3)`: the least row count whose three-wide rows hold every option; zero for no options |
| `Calc.BoxRows` | calc.py:18-20 | the nested loops emit exactly three block numbers per row |
| `Calc.BoxRowsPosition` | calc.py:18-20 | row-major order: element `k` is column `x0 + k % 3` of row `y + k / 3` |
| `Calc.SelectBoxBlockNumbers` | calc.py:11-21 | zero columns raise ZeroDivisionError; otherwise the box has exactly `3 * ceil(models / 3)` block numbers |
| `Calc.SelectBoxPosition` | calc.py:15-20 | element `k` of the box is the block number of column `x0 + k % 3`, row `y0 + k / 3`, counted from the anchor's coordinates |
| `Calc.SelectBoxStartsAtAnchor` | calc.py:15-20 | with at least one option, the first element is the clicked block itself |
| `Calc.SelectBoxSpillsIntoNextRow` | calc.py:18-20 | with the anchor in one of the last two columns, the cell past the right edge gets the number of column 0 of the next row; nothing is raised |
| `Calc.SelectBoxInRowIff` | calc.py:15-20 | every cell lands at the coordinates the box drew it at if and only if the anchor's column plus 3 does not pass the column count |
| `Calc.SelectBoxOfTwoRows` | calc.py:11-21 | for 4 to 6 options the box is `[a, a+1, a+2, a+c, a+c+1, a+c+2]` for anchor `a` and column count `c`, wherever `a` sits |
| `Calc.SelectBoxExampleTwo` | calc.py:11-21 | ten columns, anchor 2, six options give `[2, 3, 4, 12, 13, 14]` |
| `Calc.SelectBoxExampleLastColumn` | calc.py:11-21 | ten columns, anchor 9, six options give `[9, 10, 11, 19, 20, 21]` |
| `Blocks.Fresh` | app.py:13-18 | a block built from an id alone has the declared default type, model, CSS class and empty htmx; the default CSS class is the one the CSS-class rule gives the default type |
| `Blocks.CssClass` | app.py:74-79 | the result starts with `block-default`; it is exactly `block-default` if and only if the argument is; otherwise the argument follows after one space |
| `Blocks.CssClassInjective` | app.py:74-79 | two arguments with the same CSS class are equal |
| `Blocks.ToEmpty` | app.py:81-85 | emptying a block resets every field except the id to its default; the htmx becomes the rendered "empty" template for the block's own id |
| `Blocks.NewBlock` | app.py:56-59 | a constructed block differs from the declared defaults only in its rendered htmx |
| `Blocks.ToComponent` | app.py:87-93 | keeps the id; type "component", the component's figure, CSS class from the CSS-class rule, htmx rendered with the block's id and the component |
| `Blocks.ToSelect` | app.py:95-101 | keeps the id; type "select", class "block-select", the component's figure, htmx rendered with the clicked block's id rather than its own |
| `Blocks.UpdateFrom` | app.py:103-107 | keeps the id and takes every other field from the source block |
| `Blocks.TransitionsDependOnlyOnId` | app.py:81-101 | each of the three transitions gives the same block for any two blocks with the same id |
| `Blocks.UpdateFromLaws` | app.py:103-107 | the later source wins; copying from oneself changes nothing; the copy equals its source if and only if the ids agree |
| `Blocks.CssClassesOfStates` | app.py:74-101 | the empty class is the rule's class for "empty"; a component is styled like an empty block if and only if it is named "empty"; no component is styled like a selection box cell |
| `Grid.RefreshBlocksFrom` | app.py:146-148 | same length; every entry keeps its id; no exception if and only if every id is inside the grid; otherwise IndexError; ids after the first one past the end are never read, so they may be anything |
| `Grid.RefreshPointwise` | app.py:146-148 | after a complete refresh, each entry takes the contents of the last listed block with its index, keeping its own id; entries no block names are unchanged |
| `Grid.RefreshStopsAtFirstBadId` | app.py:146-148 | the first id past the end raises IndexError, after the blocks before it were copied in and before any after it |
| `Events.EventData` | app.py:159-160 | the event holds the parameters' keys plus "event_type"; parameters keep their values; the type is the action's unless a parameter overrides it |
| `Events.MarkBlocks` | app.py:187-192 | as many blocks as the shorter of the id list and the model list; block `i` is a new block with id `ids[i]` put in the select state for model `i` |
| `Events.BlocksToMark` | app.py:181-192 | six blocks; block `i` has the `i`-th box id for ten columns and six models, is in the select state and shows `MODELS[i]` |
| `Events.BlocksToMarkIds` | app.py:181-192 | the marked ids are the clicked block, the next two, and the same three ten blocks further on |
| `Events.BottomRowMarksOutsideGrid` | app.py:182-186 | a click on any of the bottom row's blocks marks an id of at least 60, past the last block |
| `Events.SelectboxCreated` | app.py:173-179 | the listener's event has type "selectbox_created", the clicked id and the marked blocks, and nothing else |
| `Events.UpdateMemory` | app.py:123-130 | the event is appended at the end of the log; earlier entries are neither removed nor reordered; blocks, id and listeners are untouched |
| `Events.Notify` | app.py:129-130 | notifying listeners only appends to the log and leaves blocks and listeners alone |
| `Events.OnMemoryUpdate` | app.py:167-179 | a listener only appends to the log; on any event that is not "block_selected" it changes nothing |
| `Events.Emit` | app.py:156-157 | emitting a page action appends the action's event after the existing log |
| `Events.BlockSelectedAppendsSelectbox` | app.py:167-179 | with the block-selected listener registered, selecting block `b` appends the selection event and then a `selectbox_created` event for the same `b`, and nothing is raised |
| `Events.AppListenersOnBlockSelected` | app.py:123-130 | the same holds with both of the application's listeners registered in its order |
| `Events.BlockSelectedWithListenerOnce` | app.py:123-130 | the same holds for any listener list in which the block-selected listener appears exactly once, at any position, among component-added listeners |
| `Events.OtherEventsAppendOnly` | app.py:123-130 | an event of any other type is appended alone, whatever the listeners |
| `Events.UntypedEventRaises` | app.py:168 | an event without a type is appended, then the first listener raises KeyError |

## Left out

- Web plumbing: the FastAPI application, routes, htmx decorators, static-file mounting, the
  `/events` endpoint, page constructors and the uvicorn entry point. These are framework
  glue around the modelled functions.
- `Block.get_model` and `Block.get_hx` are not interpreted. They are the `figure` and `hx`
  fields of `Assets`. So the template table `BLOCK_HX` and Jinja's substitution are not
  modelled, nor a missing SVG file, which would raise in the middle of `update_to_select`.
- `PyOps.FloorDiv`: `math.floor(n / c)` goes through a float in Python, which loses
  precision for block numbers beyond 2^53. The model divides exactly.
- `Grid.RefreshBlocksFrom`: negative ids before the first id past the end are excluded by its
  precondition. Python would index them from the end of the list.
- `Grid.RefreshPointwise`: update blocks are values. The later-wins law assumes that no update
  is one of the grid's own Block objects. In Python, `update_from_block` changes the grid's
  objects in place, so an update that is itself a grid entry is read after earlier copies into
  it. For example, a grid `[A]` refreshed from `[U, A]`, with `U.id == 0`, ends with `U`'s
  contents in Python, but keeps `A`'s in the model.
- Python dictionary key order in events is not modelled. Events are maps.
- Value types other than strings, integers and block lists in an event are not modelled.
  A `block_id` that is not an integer is modelled as raising TypeError.
- `BlockGridMemory.__post_init__` is not modelled. Pydantic models never call it, and the
  blocks it would empty are already empty.
- Logging, `render`/`model_dump` serialisation, `BlockGrid.__iter__`, and the module-level
  construction of the global memory, grid and listener registration. The registration order
  appears only as the listener list assumed by `Events.AppListenersOnBlockSelected`.
- The grid memory's `blocks` and the grid's `blocks` share their Block objects. A grid
  refresh in Python therefore also changes the memory's blocks. The model keeps them as
  separate values, and no lemma combines `Grid.RefreshBlocksFrom` with `Events.Memory`.

# Infinite-grid noughts and crosses: a Dafny model

This project models the core of a multiplayer noughts-and-crosses game played
on an unbounded grid. Three parts are modelled.

- **The relay server** (`relay.dfy`, module `Relay`). It holds one
  process-wide game: a fixed id and an append-only list of moves. Every inbound
  message that parses appends one move, without validation. The whole game is then sent
  to every connection whose socket is open. A new connection is sent the
  whole game when it joins.
- **The browser client** (`client.dfy`, module `Client`). A container
  component owns the pan position, the local move list and the socket. A
  canvas component owns the gesture state and the zoom. Its handlers turn
  mouse, touch and wheel events into pans, zooms and clicks on grid cells. A
  click places the next player's mark in the nearest cell, unless that cell is
  taken, and sends it to the server. A server snapshot replaces the local move list wholesale.
- **The earlier client variant** (`legacy.dfy`, module `Legacy`). It has the
  same mapping and panning at a fixed 75 pixels per grid unit, with no zoom
  and no clicks. Its draw loop stops at the first off-screen marker.

Both clients share the coordinate mapping and the visibility tests in
`grid.dfy` (module `Grid`). A grid point p is drawn at
`(center + p) * delta + offset` on each axis. `center` is the pan position in
grid units, `delta` the number of pixels per grid unit, and `offset` half the
window size.

Components are classes whose fields the handlers update. Each handler is one
transition from the state before the event to the state after it. The
framework applies state updates only after a handler returns, so a handler
reads the old state throughout. Pure logic is written as functions, with
lemmas about them.

Notes on behaviour:

- A message that is valid JSON but lacks fields is not dropped. The server
  appends a move whose missing fields are undefined and broadcasts it (see
  `Relay.MalformedFramesScenario`). Only text that is not JSON, or the JSON
  literal `null`, makes the handler throw before the append.
- There is no zoom factor. The wheel changes `delta` directly, and the `scale`
  property is always 1.
- Panning divides the pixel movement by the current `delta`. As a result the
  grid follows the pointer exactly at every zoom level
  (`Grid.PanFollowsPointer`).
- A tap is recognised by the `mouseMoved` flag. Only mouse-down clears it.
  After a touch move, a tap is therefore not a click until the next mouse-down.

## Model

| member | source | states |
|---|---|---|
| Grid.LogicalRoundTrip | client/src/canvas.tsx:329-353 | For any view with a non-zero delta, mapping a grid point to pixels and back returns the same grid point. |
| Grid.LogToPhys | client/src/canvas.tsx:329-340 | Defines where a grid point is drawn: (center + p)·delta + offset on each axis. Its properties are stated by the lemmas in the rows below. |
| Grid.PhysToLog | client/src/canvas.tsx:342-353 | For any view with a non-zero delta, the grid position found under a pixel is drawn at that same pixel: phys_to_log is a right inverse of log_to_phys. |
| Grid.LogToPhysShift | client/src/canvas.tsx:329-340 | Moving a grid point by (a, b) units moves its image by (a·delta, b·delta) pixels. |
| Grid.PanFollowsPointer | client/src/canvas.tsx:182-187 | Adding a pixel movement divided by delta to the center moves every grid point's image by exactly that pixel movement. |
| Grid.OnScreenWindow | client/src/canvas.tsx:382-387 | With delta > 0, a grid point is on screen exactly when it lies in the closed rectangle between the grid positions of the surface's top-left and bottom-right pixels. |
| Grid.VisibleCellIsNear | client/src/canvas.tsx:355-380 | If the surface is at least one cell wide and high, a cell whose centre is on screen passes the four-corner nearScreen test. |
| Grid.NearScreenIsClose | client/src/canvas.tsx:355-380 | A cell that passes nearScreen has its centre within half a cell of the surface on each axis. |
| Grid.OnScreen | client/src/canvas.tsx:382-387 | Defines onScreen: false without a surface, otherwise the image of the point lies in the surface, edges included. Characterised by Grid.OnScreenWindow. |
| Grid.NearScreen | client/src/canvas.tsx:355-380 | Defines nearScreen: at least one of the four corners half a unit away on each axis is on screen. Related to onScreen by the two lemmas above. |
| Grid.LargeCellCulled | client/src/canvas.tsx:355-387 | A surface smaller than one cell can cull a cell whose centre is on screen: at delta 100 on a 50 by 50 surface with the origin at pixel (25, 25), the point (0, 0) is on screen but not near it. |
| Client.Round | client/src/canvas.tsx:93-94 | floor(v + 0.5) is an integer n with n - 0.5 <= v < n + 0.5, so ties round up. |
| Client.RoundUnique | client/src/canvas.tsx:93-94 | floor(v + 0.5) is the only integer n with n - 0.5 <= v < n + 0.5. |
| Client.NextPlayer | client/src/canvas.tsx:86-92 | The next player is "x" or "o". It is "o" exactly when the list is non-empty and its last move's player is "x". |
| Client.SameCell | client/src/canvas.tsx:98-104 | Defines the occupancy test between two moves: both coordinates of both are numbers and round to the same integers. A coordinate that is not a number gives NaN, which equals nothing. |
| Client.Occupied | client/src/canvas.tsx:98-104 | Defines occupancy: some move of the list shares a cell with the given move. |
| Client.Placement | client/src/canvas.tsx:86-104 | A click places nothing exactly when some existing move with numeric coordinates rounds to the clicked cell on both axes. Otherwise it places the next player's mark at the integers nearest to the point, within half a unit on each axis. |
| Client.PlacementKeepsCellsDistinct | client/src/canvas.tsx:98-108 | If no two moves share a cell, they still do not after a click places a move. |
| Client.PlacementKeepsAlternation | client/src/canvas.tsx:86-108 | If the players alternate from "x", they still alternate after a click places a move. |
| Client.Wheel | client/src/canvas.tsx:248-254 | One wheel event changes delta by at most one pixel and never takes a delta of at least 20 below 20. |
| Client.ZoomKeepsFloor | client/src/canvas.tsx:248-254 | From any delta >= 20, every series of wheel events ends at a delta >= 20. |
| Client.Zoom | client/src/canvas.tsx:248-254 | Defines the delta after a series of wheel events, applied one at a time. Its properties are stated by the lemmas in the rows below. |
| Client.ZoomInUnbounded | client/src/canvas.tsx:249-250 | n wheel events with the same movement deltaY > 0, of any size, add exactly n pixels to delta, with no upper bound. |
| Client.ZoomOutStopsAtFloor | client/src/canvas.tsx:251-252 | n wheel events with the same movement deltaY < 0, of any size, from delta >= 20 give max(20, delta - n). |
| Client.FlatWheelKeepsZoom | client/src/canvas.tsx:248-254 | Wheel events with deltaY = 0 leave delta unchanged, however many there are. |
| Client.MoveNearScreen | client/src/canvas.tsx:308-309 | Defines nearScreen for a move: false when a coordinate is not a number, since every comparison with NaN fails; otherwise the four-corner test. |
| Client.Visible | client/src/canvas.tsx:308-309 | Defines the moves the draw loop selects, in list order. Characterised by Client.VisibleMembers. |
| Client.VisibleMembers | client/src/canvas.tsx:308-309 | A move is drawn exactly when it is in the list and its cell is near the screen. |
| Client.Container.constructor | client/src/canvas.tsx:30-48 | The container starts centred at the origin, with one "x" move at (0, 0) and nothing sent. |
| Client.Container.MoveCenter | client/src/canvas.tsx:127-135 | The center gains the displacement componentwise; moves and sent messages are unchanged. |
| Client.Container.Click | client/src/canvas.tsx:86-116 | If the cell is occupied, moves and sent messages are unchanged. Otherwise exactly one move is appended and exactly one message with that move's player, x and y is sent. The center is unchanged. |
| Client.Container.OnMessage | client/src/canvas.tsx:58-62 | A snapshot replaces the move list wholesale; the center and sent messages are unchanged. |
| Client.Canvas.constructor | client/src/canvas.tsx:162-176 | The canvas starts with the mouse up and not moved, delta 50, no recorded touch, and the origin offset at half the window. |
| Client.Canvas.ToLogical | client/src/canvas.tsx:342-353 | With a surface, the result is the grid point whose image is the given pixel. Without one, it is the origin. |
| Client.Canvas.HandleMouseDown | client/src/canvas.tsx:178-180 | Sets mouseDown and clears mouseMoved; delta and the recorded touch are unchanged. |
| Client.Canvas.HandleMouseMove | client/src/canvas.tsx:182-187 | Always sets mouseMoved. It pans by (movementX/delta, movementY/delta) exactly when the button was down; moves are unchanged. |
| Client.Canvas.HandleMouseUp | client/src/canvas.tsx:189-191 | Clears mouseDown; the rest of the canvas state is unchanged. |
| Client.Canvas.HandleDoubleClick | client/src/canvas.tsx:193-201 | Performs the click rule at the grid point under the pointer, whatever mouseMoved is. |
| Client.Canvas.HandleTouchStart | client/src/canvas.tsx:229-235 | Records the touch point; the rest of the canvas state is unchanged. |
| Client.Canvas.HandleTouchMove | client/src/canvas.tsx:203-227 | Sets mouseMoved and records the new touch point. It pans by the finger movement divided by delta exactly when a touch was recorded before. |
| Client.Canvas.HandleTouchEnd | client/src/canvas.tsx:237-246 | Always forgets the recorded touch. It performs the click rule at the grid point of the old recorded touch exactly when there was one and mouseMoved was false; otherwise moves and messages are unchanged. |
| Client.Canvas.HandleWheel | client/src/canvas.tsx:248-254 | delta becomes Wheel(old delta, deltaY), and the invariant delta >= 20 is kept. |
| Client.Canvas.DrawnMoves | client/src/canvas.tsx:308-326 | The draw loop skips each move whose cell is not near the screen and draws the rest in order. |
| Legacy.DrawnPrefix | src/canvas.tsx:210-211 | Defines the markers the legacy draw loop draws. Characterised by the two lemmas below. |
| Legacy.DrawnPrefixIsLongestOnScreenPrefix | src/canvas.tsx:210-220 | The drawn markers are a prefix of xs, all on screen, and the next marker, if any, is off screen. |
| Legacy.OffScreenMarkerHidesTheRest | src/canvas.tsx:210-211 | One off-screen marker at index j means at most j markers are drawn, even if later ones are on screen. |
| Legacy.FixedScaleWindow | src/canvas.tsx:236-241 | At 75 pixels per unit, a marker is on screen exactly when there is a surface and the marker lies in the logical rectangle the surface shows. |
| Legacy.CanvasOnScreen | src/canvas.tsx:223-241 | For any canvas, a marker is on screen exactly when there is a surface and the marker lies in the logical rectangle the surface shows at 75 pixels per unit and the container's current pan. |
| Legacy.Container.constructor | src/canvas.tsx:25-41 | Centred at the origin, one "x" marker at (0, 0) and no "o" markers. |
| Legacy.Container.MoveCenter | src/canvas.tsx:67-76 | The center gains the displacement componentwise; both marker lists are unchanged. |
| Legacy.Canvas.constructor | src/canvas.tsx:102-115 | The canvas starts with the mouse up, no recorded touch, and the origin offset at half the window. |
| Legacy.Canvas.HandleMouseDown | src/canvas.tsx:117-120 | Sets mouseDown; the recorded touch is unchanged. |
| Legacy.Canvas.HandleMouseMove | src/canvas.tsx:122-126 | Pans by (movementX/75, movementY/75) exactly when the button is down; the marker lists are unchanged. |
| Legacy.Canvas.HandleMouseUp | src/canvas.tsx:128-130 | Clears mouseDown; the recorded touch is unchanged. |
| Legacy.Canvas.HandleTouchMove | src/canvas.tsx:132-155 | Records the new touch point. It pans by the finger movement divided by 75 exactly when a touch was recorded before. |
| Legacy.Canvas.HandleTouchStart | src/canvas.tsx:157-163 | Records the touch point; mouseDown is unchanged. |
| Legacy.Canvas.HandleTouchEnd | src/canvas.tsx:165-167 | Forgets the recorded touch and changes nothing else. |
| Legacy.Canvas.DrawnMarkers | src/canvas.tsx:210-220 | The loop draws the longest prefix of xs whose markers are all on screen and stops at the first off-screen one. |
| Relay.MakeGame | backend/server.ts:11-24 | Defines the game the process starts with: id "ABCDEFG" and one move {player "x", x 0, y 0}. |
| Relay.Push | backend/server.ts:28-33 | One frame keeps the old moves as a prefix and adds at most one move. |
| Relay.Replay | backend/server.ts:27-33 | Defines the moves after a series of frames handled one at a time. Characterised by Relay.ReplayAppends. |
| Relay.Server.Current | backend/server.ts:35 | Defines the snapshot that is sent: the game id and the whole current move list. |
| Relay.Broadcast | backend/server.ts:35-40 | Every open connection receives the snapshot once. A connection that is not open receives nothing. No connection is added or removed. |
| Relay.BroadcastIsUniform | backend/server.ts:35-40 | After a fan-out, all open connections hold the same latest snapshot. |
| Relay.ReplayAppends | backend/server.ts:29-33 | After any series of frames, the old moves are an unchanged prefix, followed by exactly the moves of the parsed frames in arrival order. |
| Relay.Server.constructor | backend/server.ts:11-24 | The game starts with id "ABCDEFG", one move {player "x", x 0, y 0}, and no connections. |
| Relay.Server.Join | backend/server.ts:26-43 | A new connection is registered as open and has been sent exactly the current game; the moves are unchanged. |
| Relay.Server.Submit | backend/server.ts:27-41 | A parsed frame appends exactly one move with its x, y and player as given, with no cell or turn check, then the whole new game goes to every open connection, the sender included. A frame that fails to parse throws before the append: nothing changes and nothing is sent. |
| Relay.Server.Close | backend/server.ts:36-37 | A connection whose socket has begun closing stays in the set but is no longer open, so fan-outs skip it. |
| Relay.Server.Leave | backend/server.ts:36 | The given id leaves the connection set, whatever its state; the moves are unchanged. The library does this when a socket finishes closing. |
| Relay.TwoClientsScenario | backend/server.ts:26-43 | Two clients join a fresh server and one submits an "o" at (0, 1). Both are sent the initial game, then the game with both moves. |
| Relay.MalformedFramesScenario | backend/server.ts:28-40 | A frame lacking y and player is appended with those fields undefined and broadcast. A following non-JSON frame throws and changes nothing. |

## Left out

- HTTP serving, routing, `server.listen` and the port setting: process plumbing with no state of the game.
- The WebSocket transport and JSON text: frames arrive already parsed (`Relay.Inbound`), and a snapshot is sent as the game value. A failed send to one connection is not modelled.
- What happens after the message handler throws. The model records only that it threw before the append (`Relay.Outcome.Threw`). By default Node ends the process on an uncaught exception; the model does not capture that, so `Relay.Server.Submit` can still be called after a throw, as if the process survived.
- `Relay.Server.Close` and `Relay.Server.Leave` stand for socket state changes made by the WebSocket library, not by code of the server; connection ids are abstract naturals.
- Client reconnect on close: it only constructs a new socket.
- The client's socket: `Client.Container.outbox` records the messages handed to `send`. Whether the socket is open at that moment is not modelled. The snapshot handler receives the already-decoded move list, and the game id is ignored as in the code.
- Rendering: `render`, the mount, update and unmount callbacks, the animation-frame loop, the grid lines, the highlight of the last move, the shapes drawn, and the surface resizing. Only which moves and markers the draw loops select is modelled.
- The canvas-is-null fallback of `log_to_phys`: it only affects drawing positions, and `onScreen` reports false without a surface anyway. The fallback of `phys_to_log` is modelled in `Client.Canvas.ToLogical`.
- Client.Move: a coordinate is a number or not one (`None`, standing for a missing field, which arithmetic turns into NaN). Other JSON values, such as strings that JavaScript coerces to numbers, are not modelled in the snapshot that `Client.Container.OnMessage` receives. A missing player is any string other than "x" and "o".
- Floating point: coordinates are exact reals, so the round trips are exact and rounding error is not captured. A NaN wheel movement is not modelled.
- The `scale` property, which is always 1, and the unused `n` and `rAF` state.
- Touch events carry the point of their first touch; an event with no touches is not modelled.
- The legacy `os` list is never drawn, so only `xs` drawing is modelled.
- Window sizes are constructor parameters.

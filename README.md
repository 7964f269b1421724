# Inventory panel controller (OpenDiablo2), modelled in Dafny

This project models the controller of OpenDiablo2's in-game inventory panel
(`d2game/d2player/inventory.go`). It covers three parts of the controller:

- **Open/closed state machine.** `IsOpen`, `Open`, `Close` and `Toggle` update the
  open flag and the close button's visibility. `Close` fires the close callback,
  which the model counts.
- **Border tiling (`renderFrame`).** The base frame is drawn first. Then four corner
  frames of the panel sprite are drawn, in the order top-left, top-right,
  bottom-right, bottom-left. A cursor starts at `(originX + 1, originY + 64)` and
  moves by each corner's own measured width or height.
- **Hover hit-testing and tooltip anchoring (`renderItemHover`, `renderItemDescription`).**
  The grid's items are scanned in list order. The first item whose box strictly
  contains the last pointer position gets a tooltip. The tooltip's x is the anchor
  taken when a hover starts, and its y is the item's slot row.

The files:

- `wrappers.dfy` defines `Option`.
- `lifecycle.dfy` (module `PanelLifecycle`) is the state machine as values, with
  lemmas about any sequence of Open/Close/Toggle calls.
- `tiling.dfy` (module `BorderTiling`) is the border pass as a closed-form layout,
  with lemmas about its geometry and its error path.
- `hover.dfy` (module `ItemHover`) is one hover pass and runs of passes as
  functions, with the anchor-stability lemmas.
- `inventory.dfy` (module `D2Player`) is the `Inventory` class. It has the Go
  struct's fields, and its methods are proved against the three specifications
  above. `RenderFrame` keeps the source's `for` loop with its `switch`, and
  `RenderItemHover` keeps the source's scan loop with its early `break`.

External collaborators are inputs:

- The base frame's render outcome is `frameErr`, an optional error.
- The panel sprite is `select`. It maps each frame id either to that frame's size
  or to the error `SetCurrentFrame` returns for it.
- The grid's items are `GridItem` records. Each holds the slot's screen position
  (the grid's `SlotToScreen`), the sprite size, and the description lines.
- Drawing is recorded as output. `RenderFrame` returns the corner placements.
  `Render` returns a `RenderPass` holding the corners, the logged error and the
  tooltip. A `Rendered` pass is one in which the grid was drawn too.

Behaviours of the code worth noting:

- When a corner's frame cannot be selected, the corners before it have already
  been drawn. Only the remaining corners are skipped.
- A border error does not abandon the pass. `Render` logs it and still draws the
  grid and runs hover detection.
- `Close` fires the callback on every call, including while already closed.
- The border closes only when the corner sizes fit each other: the top corners
  need equal heights and the left corners equal widths, or corners overlap or
  leave a gap.
- `hoverY` is captured together with `hoverX` but never used: the tooltip's y is
  the item's slot row.

## Model

| member | source | states |
|---|---|---|
| PanelLifecycle.Open | d2game/d2player/inventory.go:83-87 | the panel is open and its close button shown; the callback does not fire |
| PanelLifecycle.Close | d2game/d2player/inventory.go:89-94 | the panel is closed and its button hidden; the callback fires exactly once, with no guard on the previous state |
| PanelLifecycle.Toggle | d2game/d2player/inventory.go:74-81 | negates the open flag, keeps the button visible exactly when open, and fires the callback only when the panel was open |
| PanelLifecycle.RunCloseCalls | d2game/d2player/inventory.go:74-94 | over any operation sequence: the number of firings lies between the number of Close calls and that number plus the number of toggles, and equals the number of Close calls when there is no toggle; after any operation the button is visible exactly when the panel is open; a final Open or Close decides the flag |
| PanelLifecycle.RunToggles | d2game/d2player/inventory.go:74-81 | n toggles flip the open flag by the parity of n and fire the callback (n+1)/2 times from open, n/2 times from closed |
| BorderTiling.FirstFailure | d2game/d2player/inventory.go:191-194 | the first corner, in drawing order, whose frame selection fails: every earlier corner is selectable and that one fails |
| BorderTiling.Layout | d2game/d2player/inventory.go:181-208 | four placements, one per corner, in the order top-left, top-right, bottom-right, bottom-left |
| BorderTiling.Compose | d2game/d2player/inventory.go:176-212 | a failing base frame returns its error with no corner drawn; otherwise exactly the corners before the first failing one are drawn, in order, and that corner's error is returned, or no error when all four are drawn |
| BorderTiling.CornerEdgesMeet | d2game/d2player/inventory.go:188-208 | for arbitrary sizes the corner edges meet: both top corners start at the cursor row, top-right starts where top-left ends, bottom-right starts right below top-right, and bottom-left shares bottom-right's row and top-left's left edge |
| BorderTiling.OverlapFreeIff | d2game/d2player/inventory.go:196-208 | with positive sizes, no two corner rectangles overlap if and only if top-left is no taller than top-right and bottom-left is no wider than top-left |
| BorderTiling.InnerSeamsClosedIff | d2game/d2player/inventory.go:196-208 | with positive sizes, a top-left corner shorter than top-right leaves the pixel below it uncovered, a bottom-left corner narrower than top-left leaves the pixel right of it uncovered, and the inner seams close with neither overlap nor gap if and only if the top heights and the left widths are equal |
| ItemHover.Contains | d2game/d2player/inventory.go:222 | the hit test is strict on all four sides, so only an item at least two pixels wide and high can ever be hit |
| ItemHover.FirstHit | d2game/d2player/inventory.go:217-235 | the first item in list order whose box strictly contains the pointer; none exactly when no item contains it |
| ItemHover.Pass | d2game/d2player/inventory.go:214-238 | hovering becomes true iff some item contains the pointer; a tooltip is rendered iff hovering, for the first such item, at (anchor x, item slot row); the anchor takes the pointer only on a not-hovering to hovering transition |
| ItemHover.TooltipOnSlotRow | d2game/d2player/inventory.go:240-246 | the tooltip's y is the hovered item's slot row, strictly above the pointer, so never the pointer's y |
| ItemHover.AnchorStableWhileHovering | d2game/d2player/inventory.go:224-237 | over successive passes that all hit an item, every tooltip has the same x: the first pointer's x if the hover started there, else the earlier anchor |
| ItemHover.LeavingResetsAnchor | d2game/d2player/inventory.go:214-237 | a pass that hits nothing clears hovering and renders nothing, so the next hit is anchored at its own pointer |
| ItemHover.AnchorExample | d2game/d2player/inventory.go:225-229 | hover starting at (50, 60), then the pointer moves to (55, 62) inside the same item: the tooltip stays at x = 50 |
| D2Player.Inventory.constructor | d2game/d2player/inventory.go:50-67 | a new panel is closed and not hovering, with its origin at (panel left, 0) |
| D2Player.Inventory.LoadCloseButton | d2game/d2player/inventory.go:105-107 | the close button exists and is hidden |
| D2Player.Inventory.IsOpen | d2game/d2player/inventory.go:69-72 | returns the open flag |
| D2Player.Inventory.SetOnCloseCb | d2game/d2player/inventory.go:96-99 | a close callback is registered |
| D2Player.Inventory.Open | d2game/d2player/inventory.go:83-87 | the panel state becomes PanelLifecycle.Open of the old state; nothing else changes |
| D2Player.Inventory.Close | d2game/d2player/inventory.go:89-94 | the panel state becomes PanelLifecycle.Close of the old state; nothing else changes |
| D2Player.Inventory.Toggle | d2game/d2player/inventory.go:74-81 | the panel state becomes PanelLifecycle.Toggle of the old state; nothing else changes |
| D2Player.Inventory.SetLastMouse | d2game/d2player/inventory.go:42-43 | the last pointer position is overwritten |
| D2Player.Inventory.RenderFrame | d2game/d2player/inventory.go:176-212 | the loop's corner placements and returned error are Compose from the cursor (originX + 1, originY + 64) |
| D2Player.Inventory.RenderItemDescription | d2game/d2player/inventory.go:240-246 | the tooltip is Describe of the current hover fields: the item's id and lines at (hoverX, the item's slot row), the same tooltip Pass renders |
| D2Player.Inventory.RenderItemHover | d2game/d2player/inventory.go:214-238 | the scan's tooltip and new hover fields are Pass of the old hover fields at the last pointer position |
| D2Player.Inventory.Render | d2game/d2player/inventory.go:161-174 | a closed panel renders nothing and keeps its hover fields; an open one returns the border pass, with its error logged, and the hover pass, which runs even after a border error |

## Left out

- Item provisioning in `Load` (d2game/d2player/inventory.go:113-158): it depends on the item factory, `Identify` and the grid's `Add`/`ChangeEquippedSlot`, which are not part of this model. It also iterates a Go map in unspecified order.
- The close button's activation handler (d2game/d2player/inventory.go:108) only calls `Close`. It is not a separate member.
- `NewInventory` wiring: the asset manager, the UI manager, the item factory, the grid and the tooltip widget. The constructor keeps only the field initialisation.
- Actual drawing, fonts and palettes. `frame.Render`, the sprite and the grid's `SlotToScreen`, sprite lookup and `GetItemDescription` are inputs, and `grid.Render` is implied by a `Rendered` pass.
- Logging (`log.Println`, `fmt.Printf`). The logged border error is part of the `RenderPass` result instead.
- The panel sprite is assumed to exist. `Load` discards the sprite constructor's error (d2game/d2player/inventory.go:110), and with a nil sprite `renderFrame` panics at d2game/d2player/inventory.go:192 instead of returning an error. `D2Player.Inventory.RenderFrame` always returns normally.
- The panic on a nil close button or an unset callback. It is modelled as preconditions of `Open`, `Close` and `Toggle`.
- A missing entry in the grid's sprite map, which would panic in Go. Each item's size is taken as given.
- How the pointer position is written: the source file never writes it. `SetLastMouse` is a plain last-write-wins setter.
- BorderTiling.Layout: positions use unbounded integers. The 64-bit wrap-around of Go's `int` in `x += w` and `y + h` is not modelled.
- ItemHover.Pass: containment uses unbounded integers. The 64-bit wrap-around of `ix + iw` and `iy + ih` is not modelled.

# Menu navigator of the NEOos handheld, in Dafny

This project models the menu navigation state machine of the NEOos firmware (`MenuSystem`).
The device has a 128x64 monochrome display and six buttons. A main menu of six categories
(WIFI, BLE, INFRARED, NEOKIN, GPIO, SETTINGS) leads to a five-item list per category. Choosing
an item opens its function screen. There, Select runs the callback bound to the item. The one
exception is INFRARED/TRANSMISSION, whose callback opens a five-entry transmission list of
send modes.

Files:

- `catalog.dfy`, module `MenuCatalog`: the count constants and label tables of `MenuSystem.h`.
  It also holds the category switch that picks the active submenu table, and lemmas about the
  tables' contents. The source writes this switch out four times: in the select handler, in the
  submenu and function-screen painters, and in the action dispatch.
- `navigation.dfy`, module `MenuNav`: the six navigation fields as a value (`Nav`). It defines
  the screen they denote (`ScreenOf`, the render pass's priority order) and the effect of every
  handler and callback as a function. It holds the invariants and the lemmas about these.
- `render.dfy`, module `MenuRender`: the four painters as sequences of abstract draw commands,
  with lemmas about what each screen shows.
- `menu_system.dfy`, module `MenuSystem`: class `MenuSystem` with the six fields of the source.
  The handlers, the action dispatch, the two callbacks that move the navigation, and the
  painters are methods. Each is proved against the functions above. A ghost field `trace`
  records which action callbacks have run.

Invariants kept by every handler (`MenuNav.Valid`):

- `currentMenu` is 0 or 1 and every index is within its list.
- On the main menu both flags are clear.
- The transmission flag is set only on top of the INFRARED/TRANSMISSION function screen. In
  that state the function-screen flag is still set underneath.

Two behaviours of the code that a reader might not expect; the model follows the code:

- Select on INFRARED/TRANSMISSION in the category list does not open the transmission list.
  Like any other non-BACK item, it opens the function screen. A second Select runs the dispatch,
  which calls the ATK-menu callback, and that callback opens the list
  (`MenuNav.SelectInSubMenu`, `MenuNav.SelectInFunctionScreen`).
- Back, or choosing BACK, on the transmission list lands on the function screen, not on the
  category list. The reason is that `functionScreen` stays set while the list is shown
  (`MenuNav.BackRules`, `MenuNav.SelectInTransmission`, `MenuNav.InfraredWalk`).

The transmission list detects BACK by comparing the table entry's pointer with the literal
`"BACK"`, while the category list uses `strcmp`. Both are modelled as label equality. This
assumes that the compiler merges identical string literals.

The C operators are written out. `%` is the truncating remainder `CRem` and `/ 2` is `Half`.
Both differ from Dafny's Euclidean operators only on negative operands. `getStrWidth` becomes a
parameter `width: string -> int`. Both calls to it follow the switch to the large font.

## Model

| member | source | states |
|---|---|---|
| MenuCatalog.SubMenuOptionsFor | Code/NEOOSultrarevamp/MenuSystem.cpp:122-132 | the table chosen for any index has 5 labels, with BACK at index 4 and nowhere else |
| MenuCatalog.TableSizes | Code/NEOOSultrarevamp/MenuSystem.h:8-52 | counts are 6, 5 and 5; labels, icons and the per-category tables have those lengths, so icons are index-aligned with labels |
| MenuCatalog.CategoryMapping | Code/NEOOSultrarevamp/MenuSystem.cpp:124-131 | the switch maps indices 0..5 to the WIFI, BLE, INFRARED, NEOKIN, GPIO, SETTINGS tables in main-menu order, and any other index to WIFI |
| MenuCatalog.DistinctTables | Code/NEOOSultrarevamp/MenuSystem.h:45-87 | labels within every table are pairwise distinct, and so are the icons |
| MenuCatalog.BackOnlyAtLast | Code/NEOOSultrarevamp/MenuSystem.h:55-87 | in every category table and in the transmission table, an entry is BACK if and only if it is at index 4 |
| MenuCatalog.InfraredTransmissionPair | Code/NEOOSultrarevamp/MenuSystem.h:45-65 | the labels INFRARED and TRANSMISSION occur together only at main index 2, item 0 |
| MenuNav.CRem | Code/NEOOSultrarevamp/MenuSystem.cpp:192-211 | C's remainder lies in [0, n) for a non-negative dividend and in (-n, 0] for a negative one, and differs from the dividend by a multiple of n, which together fix its value |
| MenuNav.WrapSteps | Code/NEOOSultrarevamp/MenuSystem.cpp:192-211 | on an in-range index, `(i + 1) % n` and `(i + n - 1) % n` are the next and previous positions on the cycle 0..n-1 |
| MenuNav.InitialState | Code/NEOOSultrarevamp/MenuSystem.cpp:4-7 | the initial fields (menu 0, all indices 0, both flags false) satisfy the invariants and show the main menu |
| MenuNav.StepPreservesBounds | Code/NEOOSultrarevamp/MenuSystem.cpp:80-237 | every handler keeps `currentMenu` in {0,1} and all three indices within their list lengths |
| MenuNav.StepPreservesMainMenuClean | Code/NEOOSultrarevamp/MenuSystem.cpp:83-178 | every handler keeps "on the main menu neither flag is set" |
| MenuNav.StepPreservesValid | Code/NEOOSultrarevamp/MenuSystem.cpp:80-237 | every handler keeps the bounds, the main-menu invariant and the transmission-context invariant |
| MenuNav.Run | Code/NEOOSultrarevamp/ButtonHandler.cpp:28-57 | every state reached from a valid state by any sequence of button events is valid |
| MenuNav.NavigationMovesActiveIndex | Code/NEOOSultrarevamp/MenuSystem.cpp:189-237 | an arrow button keeps the screen and changes only the active list's index, one place back (Left/Up) or forward (Right/Down) modulo the list length; on the function screen it changes nothing |
| MenuNav.UpDownAgreeWithLeftRight | Code/NEOOSultrarevamp/MenuSystem.cpp:189-237 | on in-range indices, Up has the same effect as Left and Down the same as Right, in every state |
| MenuNav.UpAgreesWithLeftOnlyUpToCount | Code/NEOOSultrarevamp/MenuSystem.cpp:189-225 | on the category or transmission list, Up and Left agree if and only if the active index lies in 0 .. n; at every index outside it, including every negative one, the conditional wrap and the modular wrap give different results |
| MenuNav.LeftAfterRight | Code/NEOOSultrarevamp/MenuSystem.cpp:189-213 | on in-range indices, Left undoes Right |
| MenuNav.RightAfterLeft | Code/NEOOSultrarevamp/MenuSystem.cpp:189-213 | on in-range indices, Right undoes Left |
| MenuNav.RightTimesAdvances | Code/NEOOSultrarevamp/MenuSystem.cpp:202-213 | k Right presses move the active index to (i + k) mod n and change nothing else |
| MenuNav.RightFullCycle | Code/NEOOSultrarevamp/MenuSystem.cpp:202-213 | six Right presses on the main menu, or five on a category or transmission list, restore the state |
| MenuNav.SelectFromMainMenu | Code/NEOOSultrarevamp/MenuSystem.cpp:83-88 | Select on the main menu opens the category list at item 0, keeps the category index and fires no action |
| MenuNav.SelectInSubMenu | Code/NEOOSultrarevamp/MenuSystem.cpp:120-146 | on a category list, Select returns to the main menu if and only if the item is BACK; otherwise it opens the function screen with the indices unchanged, and never the transmission list |
| MenuNav.SelectInFunctionScreen | Code/NEOOSultrarevamp/MenuSystem.cpp:116-119 | Select on a function screen fires the callback bound to the pair; the navigation changes if and only if the pair is (2,0), which yields the transmission list at index 0 with the function flag kept |
| MenuNav.SelectInTransmission | Code/NEOOSultrarevamp/MenuSystem.cpp:89-115 | on the transmission list, BACK (index 4) returns to the function screen; any other entry fires its send mode and comes back to the list at index 0 |
| MenuNav.EnterTransmissionOnlyFromInfraredTransmission | Code/NEOOSultrarevamp/MenuSystem.cpp:397-400 | from any other screen, Select reaches the transmission list if and only if it is on the function screen of the item labelled TRANSMISSION under the category labelled INFRARED, and then at index 0 |
| MenuNav.BackRules | Code/NEOOSultrarevamp/MenuSystem.cpp:149-163 | Back goes from the transmission list to the function screen, from the function screen to the category list, and from a category list to the main menu, and is a no-op on the main menu; it changes no index |
| MenuNav.ActionEffects | Code/NEOOSultrarevamp/MenuSystem.cpp:442-623 | the dispatch changes navigation state only for the pair (2,0); every send mode ends with the transmission flag set, index 0 and nothing else changed |
| MenuNav.InfraredWalk | Code/NEOOSultrarevamp/MenuSystem.cpp:80-237 | from the initial state, Right, Right, Select gives the INFRARED list; two more Selects give the transmission list at 0; Right, Right gives BURST SEND; Back gives the function screen with item 0 |
| MenuRender.CursorOnlyOnSelectedRow | Code/NEOOSultrarevamp/MenuSystem.cpp:300-316 | the cursor is drawn at column 4 on a row if and only if that row is the selected index, at y = 24 + 10 * index |
| MenuRender.EveryItemOnItsRow | Code/NEOOSultrarevamp/MenuSystem.cpp:300-316 | each list item i is drawn at column 12 on row y = 24 + 10 * i |
| MenuRender.Snprintf | Code/NEOOSultrarevamp/MenuSystem.cpp:293-294 | the formatted text is a prefix of the full text that fits the buffer with its terminator; it is the full text when that fits, and exactly size - 1 characters when it does not |
| MenuRender.Half | Code/NEOOSultrarevamp/MenuSystem.cpp:259-265 | C's halving truncates toward zero: twice the result is within one of the operand, on the operand's side of zero |
| MenuRender.TitlesFit | Code/NEOOSultrarevamp/MenuSystem.cpp:291-351 | no category-list or function-screen title is cut short by its 20- or 30-byte buffer |
| MenuRender.FunctionGlyphIsMenuIcon | Code/NEOOSultrarevamp/MenuSystem.cpp:354-368 | the glyph that the function screen's if-chain picks for each category equals that category's main-menu icon |
| MenuRender.SubMenuScreenShowsSelection | Code/NEOOSultrarevamp/MenuSystem.cpp:271-319 | a category list draws every item on its row, the cursor on the selected row only, and the selected item in its title |
| MenuRender.TransmissionScreenShowsSelection | Code/NEOOSultrarevamp/MenuSystem.cpp:45-77 | the transmission list draws every entry on its row, and the cursor exactly on the row of its index, or nowhere if the index is out of range |
| MenuRender.MainMenuScreenShowsCategory | Code/NEOOSultrarevamp/MenuSystem.cpp:241-269 | the main menu draws the selected category's label and the icon at the same index, each centred on column 64 to within rounding |
| MenuRender.FunctionScreenShowsContext | Code/NEOOSultrarevamp/MenuSystem.cpp:321-371 | the function screen's title is "category:item" and it shows the category's icon |
| MenuSystem.MenuSystem.constructor | Code/NEOOSultrarevamp/MenuSystem.cpp:4-9 | a new object is on the main menu with all indices 0, both flags false and no action run |
| MenuSystem.MenuSystem.HandleSelectButton | Code/NEOOSultrarevamp/MenuSystem.cpp:80-147 | the new fields are `SelectStep` of the old ones, the trace gains exactly the action Select fires, and the invariants hold |
| MenuSystem.MenuSystem.HandleBackButton | Code/NEOOSultrarevamp/MenuSystem.cpp:149-163 | the new fields are `BackStep` of the old ones, no action runs, and the invariants hold |
| MenuSystem.MenuSystem.HandleBButton | Code/NEOOSultrarevamp/MenuSystem.cpp:165-186 | the same effect on the fields as the back handler |
| MenuSystem.MenuSystem.HandleLeftButton | Code/NEOOSultrarevamp/MenuSystem.cpp:189-200 | the new fields are `LeftStep` of the old ones and the invariants hold |
| MenuSystem.MenuSystem.HandleRightButton | Code/NEOOSultrarevamp/MenuSystem.cpp:202-213 | the new fields are `RightStep` of the old ones and the invariants hold |
| MenuSystem.MenuSystem.HandleUpButton | Code/NEOOSultrarevamp/MenuSystem.cpp:215-225 | the new fields are `UpStep` of the old ones and the invariants hold |
| MenuSystem.MenuSystem.HandleDownButton | Code/NEOOSultrarevamp/MenuSystem.cpp:227-237 | the new fields are `DownStep` of the old ones and the invariants hold |
| MenuSystem.MenuSystem.ExecuteFunctionAction | Code/NEOOSultrarevamp/MenuSystem.cpp:373-419 | the if-chain runs exactly the callback that the binding table gives for the (category, item) pair, or none, and the fields change as that callback's effect says |
| MenuSystem.MenuSystem.OpenTransmissionMenu | Code/NEOOSultrarevamp/MenuSystem.cpp:442-452 | sets menu 1, the transmission flag and index 0, and records the ATK-menu callback |
| MenuSystem.MenuSystem.RunSendMode | Code/NEOOSultrarevamp/MenuSystem.cpp:454-623 | a send mode returns with the transmission flag set and index 0, and records itself |
| MenuSystem.MenuSystem.Update | Code/NEOOSultrarevamp/MenuSystem.cpp:17-42 | the render pass paints the screen of the current fields, in the priority main, transmission, function, category |
| MenuSystem.MenuSystem.DrawTransmissionSubMenu | Code/NEOOSultrarevamp/MenuSystem.cpp:45-77 | the loop emits the title bar, then rows 0..4 of the transmission list with the cursor on the selected row, then the flush |
| MenuSystem.MenuSystem.DrawSubMenu | Code/NEOOSultrarevamp/MenuSystem.cpp:271-319 | the loop emits the title bar with the selected item, then rows 0..4 of the active category's list with the cursor on the selected row, then the flush |
| MenuSystem.MenuSystem.DrawMainMenu | Code/NEOOSultrarevamp/MenuSystem.cpp:241-269 | emits the main-menu screen: title, chevrons, the centred label and the centred icon |
| MenuSystem.MenuSystem.DrawFunctionScreen | Code/NEOOSultrarevamp/MenuSystem.cpp:321-371 | emits the function screen, whose if-chain glyph is the category's icon |

## Left out

- Serial logging, including the static `lastFunctionScreen` edge logger in `update()`, is left out. It has no effect on navigation or drawing.
- `init()` and the display and button pointers are not modelled. The display is abstracted as the returned draw-command sequence.
- Display.cpp is not part of this model. It only passes calls through to the U8g2 library, which drives the pixels.
- ButtonHandler.cpp is not part of this model. Its pin sampling and `millis()` debounce are hardware and clock I/O. `MenuNav.Run` takes the handler calls as a given event sequence.
- The busy-wait loops of the four send modes are not modelled, because they poll the B button and call `delay`. Only their effect on navigation when they exit is modelled (`RunSendMode`). Their counters and screens are display-only.
- `RunSendMode` stands for the four send-mode methods, which have the same effect on navigation. The mode is a parameter.
- The other action callbacks (WiFi, BLE, infrared receive, GPIO read, write, toggle and monitor) are recorded in the ghost trace only. The WiFi, BLE and infrared-receive callbacks only write to the serial log. The four GPIO callbacks read or write pins and draw. None of them touches navigation state. Callbacks declared in the header but never defined are not modelled.
- HandleBButton: no input reaches this handler, because the button handler sends the B button to the back handler (ButtonHandler.cpp:34-37). It is modelled as the source defines it.
- HandleBButton: the forced redraw it performs after the state change is not modelled. The redraw is repeated by the next `Update`.
- OpenTransmissionMenu, RunSendMode: the immediate redraw of the transmission list is not modelled, for the same reason.
- Fonts, pixel metrics and the exact rendering of text are abstract. `getStrWidth` is an arbitrary function passed in.
- 32-bit `int` overflow is not modelled. The arithmetic is on unbounded integers, and the invariants keep every index far from the limits.
- The method contracts require the object invariant `Valid()`. In the source the fields are private and every reachable state satisfies it (`MenuNav.Run`). `SelectStep` and the painters require only the in-range indices that their table lookups need.
- ExecuteFunctionAction, OpenTransmissionMenu, RunSendMode: these neither require nor ensure `Valid()`. The source keeps them private (MenuSystem.h:90, 108, 111-114) and reaches them only from the select handler, directly or through the dispatch, whose contract keeps `Valid()`. Called from any other state, for example `OpenTransmissionMenu` on the main menu, they could break the transmission-context invariant.

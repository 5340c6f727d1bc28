/** The navigator's state as a value: the six fields of the menu object, the screen they
    denote, the effect of every button handler and action callback on them, and the
    properties those effects keep. The class in menu_system.dfy is proved against these
    functions. */
module MenuNav {
  import opened MenuCatalog

  datatype Option<+T> = None | Some(value: T)

  /** Snapshot of `currentMenu` (0 main menu, 1 below it), the three selection indices and
      the two screen flags. */
  datatype Nav = Nav(currentMenu: int, mainMenuIndex: int, subMenuIndex: int,
                     transmissionSubMenuIndex: int, functionScreen: bool,
                     isTransmissionSubMenu: bool)

  datatype Screen = Main | Sub | Transmission | Function

  /** The six button events, in the order the input poller dispatches them. */
  datatype Event = Select | Back | Left | Right | Up | Down {
    predicate IsNavigation() { Left? || Right? || Up? || Down? }
    predicate IsBackward() { Left? || Up? }
  }

  datatype SendMode = DirectSend | RepeatSend | BurstSend | AdaptiveSend

  /** The action callbacks that the dispatch can invoke, by name. */
  datatype Action =
    | WifiScan | WifiConnect | BleConnect | InfraredReceive | InfraredATKmenu
    | InfraredSend(mode: SendMode)
    | GpioRead | GpioWrite | GpioToggle | GpioMonitor

  /** The three selection lists, each with its own index field. */
  datatype Level = MainLevel | SubLevel | TransmissionLevel

  /** The state the constructor creates. */
  const Initial: Nav := Nav(0, 0, 0, 0, false, false)

  /** The screen the render pass draws: main menu first, then the transmission list, then
      the function screen, else the category list. */
  function ScreenOf(s: Nav): Screen {
    if s.currentMenu == 0 then Main
    else if s.isTransmissionSubMenu then Transmission
    else if s.functionScreen then Function
    else Sub
  }

  // ---------------------------------------------------------------------------
  // Invariants

  predicate IndicesInRange(s: Nav) {
    && 0 <= s.mainMenuIndex < MainMenuCount
    && 0 <= s.subMenuIndex < SubMenuCount
    && 0 <= s.transmissionSubMenuIndex < TransmissionSubMenuCount
  }

  predicate InBounds(s: Nav) {
    (s.currentMenu == 0 || s.currentMenu == 1) && IndicesInRange(s)
  }

  /** On the main menu neither flag is set. */
  predicate MainMenuClean(s: Nav) {
    s.currentMenu == 0 ==> !s.functionScreen && !s.isTransmissionSubMenu
  }

  /** The transmission list is only ever shown on top of the INFRARED/TRANSMISSION function
      screen, whose flag stays set underneath it. */
  predicate TransmissionContext(s: Nav) {
    s.isTransmissionSubMenu ==>
      && s.currentMenu == 1
      && s.functionScreen
      && s.mainMenuIndex == InfraredIndex
      && s.subMenuIndex == TransmissionItemIndex
  }

  predicate Valid(s: Nav) {
    InBounds(s) && MainMenuClean(s) && TransmissionContext(s)
  }

  // ---------------------------------------------------------------------------
  // Index arithmetic

  /** C's `%`, which truncates toward zero where Dafny's is Euclidean; the two agree on a
      non-negative dividend. */
  function CRem(a: int, n: int): (r: int)
    requires n > 0
    ensures 0 <= a ==> 0 <= r < n
    ensures a < 0 ==> -n < r <= 0
    ensures (a - r) % n == 0
  {
    if a >= 0 then
      ModUnique(a - a % n, n, a / n, 0);
      a % n
    else
      ModUnique(a + (-a) % n, n, -((-a) / n), 0);
      -((-a) % n)
  }

  lemma ModSmall(a: int, n: int)
    requires n > 0 && 0 <= a < 2 * n
    ensures a % n == if a < n then a else a - n
  {
  }

  /** `(i + n - 1) % n`, the left handler's step back. */
  function WrapPrev(i: int, n: int): int
    requires n > 0
  {
    CRem(i + n - 1, n)
  }

  /** `(i + 1) % n`, the right handler's step forward. */
  function WrapNext(i: int, n: int): int
    requires n > 0
  {
    CRem(i + 1, n)
  }

  /** `(i > 0) ? i - 1 : n - 1`, the up handler's step back. */
  function StepUp(i: int, n: int): int {
    if i > 0 then i - 1 else n - 1
  }

  /** `(i < n - 1) ? i + 1 : 0`, the down handler's step forward. */
  function StepDown(i: int, n: int): int {
    if i < n - 1 then i + 1 else 0
  }

  /** On an in-range index both modular steps are one place around the cycle 0 .. n - 1. */
  lemma {:induction false} WrapSteps(i: int, n: int)
    requires 0 <= i < n
    ensures WrapNext(i, n) == if i == n - 1 then 0 else i + 1
    ensures WrapPrev(i, n) == if i == 0 then n - 1 else i - 1
  {
    ModSmall(i + 1, n);
    ModSmall(i + n - 1, n);
  }

  // ---------------------------------------------------------------------------
  // Handlers

  function LeftStep(s: Nav): Nav {
    if s.currentMenu == 0 then
      s.(mainMenuIndex := WrapPrev(s.mainMenuIndex, MainMenuCount))
    else if s.isTransmissionSubMenu then
      s.(transmissionSubMenuIndex := WrapPrev(s.transmissionSubMenuIndex, TransmissionSubMenuCount))
    else if !s.functionScreen then
      s.(subMenuIndex := WrapPrev(s.subMenuIndex, SubMenuCount))
    else s
  }

  function RightStep(s: Nav): Nav {
    if s.currentMenu == 0 then
      s.(mainMenuIndex := WrapNext(s.mainMenuIndex, MainMenuCount))
    else if s.isTransmissionSubMenu then
      s.(transmissionSubMenuIndex := WrapNext(s.transmissionSubMenuIndex, TransmissionSubMenuCount))
    else if !s.functionScreen then
      s.(subMenuIndex := WrapNext(s.subMenuIndex, SubMenuCount))
    else s
  }

  /** Up keeps the modular step on the main menu and uses a conditional wrap below it. */
  function UpStep(s: Nav): Nav {
    if s.currentMenu == 0 then
      s.(mainMenuIndex := WrapPrev(s.mainMenuIndex, MainMenuCount))
    else if s.isTransmissionSubMenu then
      s.(transmissionSubMenuIndex := StepUp(s.transmissionSubMenuIndex, TransmissionSubMenuCount))
    else if !s.functionScreen then
      s.(subMenuIndex := StepUp(s.subMenuIndex, SubMenuCount))
    else s
  }

  function DownStep(s: Nav): Nav {
    if s.currentMenu == 0 then
      s.(mainMenuIndex := WrapNext(s.mainMenuIndex, MainMenuCount))
    else if s.isTransmissionSubMenu then
      s.(transmissionSubMenuIndex := StepDown(s.transmissionSubMenuIndex, TransmissionSubMenuCount))
    else if !s.functionScreen then
      s.(subMenuIndex := StepDown(s.subMenuIndex, SubMenuCount))
    else s
  }

  /** The back handler; the B-button handler has the same effect on the fields. */
  function BackStep(s: Nav): Nav {
    if s.isTransmissionSubMenu then s.(isTransmissionSubMenu := false, currentMenu := 1)
    else if s.functionScreen then s.(functionScreen := false)
    else if s.currentMenu == 1 then s.(currentMenu := 0)
    else s
  }

  // ---------------------------------------------------------------------------
  // Actions

  /** The callbacks bound to (category, item) pairs; unbound pairs do nothing. */
  const BoundActions: map<(int, int), Action> := map[
    (0, 0) := WifiScan, (0, 1) := WifiConnect,
    (1, 0) := BleConnect,
    (2, 0) := InfraredATKmenu, (2, 1) := InfraredReceive,
    (4, 0) := GpioRead, (4, 1) := GpioWrite, (4, 2) := GpioToggle, (4, 3) := GpioMonitor]

  /** The send modes bound to the first four entries of the transmission list. */
  const SendModes: seq<SendMode> := [DirectSend, RepeatSend, BurstSend, AdaptiveSend]

  function FunctionActionFor(mainIndex: int, subIndex: int): Option<Action> {
    if (mainIndex, subIndex) in BoundActions then Some(BoundActions[(mainIndex, subIndex)]) else None
  }

  function SendModeAt(index: int): Option<SendMode> {
    if 0 <= index < |SendModes| then Some(SendModes[index]) else None
  }

  /** What an action leaves in the navigation fields once it returns. */
  function ActionEffect(a: Action, s: Nav): Nav {
    match a
    case InfraredATKmenu =>
      s.(currentMenu := 1, isTransmissionSubMenu := true, transmissionSubMenuIndex := 0)
    case InfraredSend(_) =>
      s.(isTransmissionSubMenu := true, transmissionSubMenuIndex := 0)
    case _ => s
  }

  function Perform(a: Option<Action>, s: Nav): Nav {
    match a
    case None => s
    case Some(act) => ActionEffect(act, s)
  }

  /** The actions invoked, as a trace fragment. */
  function Fired(a: Option<Action>): seq<Action> {
    match a
    case None => []
    case Some(act) => [act]
  }

  /** The function-screen dispatch: whatever callback is bound to the current pair. */
  function ExecuteStep(s: Nav): Nav {
    Perform(FunctionActionFor(s.mainMenuIndex, s.subMenuIndex), s)
  }

  // ---------------------------------------------------------------------------
  // Select

  /** The table lookups the select handler makes are in range. */
  predicate SelectDefined(s: Nav) {
    s.currentMenu != 0 ==>
      if s.isTransmissionSubMenu then 0 <= s.transmissionSubMenuIndex < TransmissionSubMenuCount
      else 0 <= s.subMenuIndex < SubMenuCount
  }

  function SelectAction(s: Nav): Option<Action>
    requires SelectDefined(s)
  {
    if s.currentMenu == 0 then None
    else if s.isTransmissionSubMenu then
      if IsBackLabel(TransmissionSubMenuOptions[s.transmissionSubMenuIndex]) then None
      else match SendModeAt(s.transmissionSubMenuIndex)
        case None => None
        case Some(m) => Some(InfraredSend(m))
    else if s.functionScreen then FunctionActionFor(s.mainMenuIndex, s.subMenuIndex)
    else None
  }

  function SelectStep(s: Nav): Nav
    requires SelectDefined(s)
  {
    if s.currentMenu == 0 then
      s.(currentMenu := 1, subMenuIndex := 0, functionScreen := false)
    else if s.isTransmissionSubMenu then
      if IsBackLabel(TransmissionSubMenuOptions[s.transmissionSubMenuIndex]) then
        s.(isTransmissionSubMenu := false, currentMenu := 1)
      else Perform(SelectAction(s), s)
    else if s.functionScreen then ExecuteStep(s)
    else if IsBackLabel(SubMenuOptionsFor(s.mainMenuIndex)[s.subMenuIndex]) then
      s.(currentMenu := 0)
    else s.(functionScreen := true)
  }

  // ---------------------------------------------------------------------------
  // Event dispatch

  predicate StepDefined(s: Nav, e: Event) {
    e.Select? ==> SelectDefined(s)
  }

  function Step(s: Nav, e: Event): Nav
    requires StepDefined(s, e)
  {
    match e
    case Select => SelectStep(s)
    case Back => BackStep(s)
    case Left => LeftStep(s)
    case Right => RightStep(s)
    case Up => UpStep(s)
    case Down => DownStep(s)
  }

  /** Every handler keeps the indices in bounds and `currentMenu` in {0, 1}. */
  lemma StepPreservesBounds(s: Nav, e: Event)
    requires InBounds(s)
    ensures StepDefined(s, e) && InBounds(Step(s, e))
  {
  }

  /** Every handler keeps both flags clear on the main menu. */
  lemma StepPreservesMainMenuClean(s: Nav, e: Event)
    requires InBounds(s) && MainMenuClean(s)
    ensures StepDefined(s, e) && MainMenuClean(Step(s, e))
  {
  }

  lemma StepPreservesValid(s: Nav, e: Event)
    requires Valid(s)
    ensures StepDefined(s, e) && Valid(Step(s, e))
  {
    StepPreservesBounds(s, e);
    StepPreservesMainMenuClean(s, e);
  }

  /** The state after a sequence of events; every state reached from a valid one is valid. */
  function Run(s: Nav, events: seq<Event>): (r: Nav)
    requires Valid(s)
    ensures Valid(r)
    decreases |events|
  {
    if events == [] then s
    else
      var before := Run(s, events[..|events| - 1]);
      StepPreservesValid(before, events[|events| - 1]);
      Step(before, events[|events| - 1])
  }

  lemma InitialState()
    ensures Valid(Initial) && ScreenOf(Initial) == Main
  {
  }

  // ---------------------------------------------------------------------------
  // Navigation

  function LevelCount(l: Level): int {
    match l
    case MainLevel => MainMenuCount
    case SubLevel => SubMenuCount
    case TransmissionLevel => TransmissionSubMenuCount
  }

  function IndexAt(s: Nav, l: Level): int {
    match l
    case MainLevel => s.mainMenuIndex
    case SubLevel => s.subMenuIndex
    case TransmissionLevel => s.transmissionSubMenuIndex
  }

  function WithIndex(s: Nav, l: Level, v: int): Nav {
    match l
    case MainLevel => s.(mainMenuIndex := v)
    case SubLevel => s.(subMenuIndex := v)
    case TransmissionLevel => s.(transmissionSubMenuIndex := v)
  }

  /** The list the arrow buttons move through on each screen; none on the function screen. */
  function ActiveLevel(s: Nav): Option<Level> {
    match ScreenOf(s)
    case Main => Some(MainLevel)
    case Sub => Some(SubLevel)
    case Transmission => Some(TransmissionLevel)
    case Function => None
  }

  /** An arrow button keeps the screen, moves the active list's index one place around its
      cycle (back for Left/Up, forward for Right/Down) and changes nothing else; on the
      function screen it changes nothing at all. */
  lemma NavigationMovesActiveIndex(s: Nav, e: Event)
    requires e.IsNavigation() && IndicesInRange(s)
    ensures ScreenOf(Step(s, e)) == ScreenOf(s) && IndicesInRange(Step(s, e))
    ensures ActiveLevel(s).None? ==> Step(s, e) == s
    ensures ActiveLevel(s).Some? ==>
      var l := ActiveLevel(s).value;
      var i, j := IndexAt(s, l), IndexAt(Step(s, e), l);
      && Step(s, e) == WithIndex(s, l, j)
      && (if e.IsBackward() then (j + 1) % LevelCount(l) == i else j == (i + 1) % LevelCount(l))
  {
    match ScreenOf(s)
    case Main =>
    case Sub =>
    case Transmission =>
    case Function =>
  }

  /** On in-range indices Up acts as Left and Down as Right, in every state. */
  lemma UpDownAgreeWithLeftRight(s: Nav)
    requires IndicesInRange(s)
    ensures UpStep(s) == LeftStep(s)
    ensures DownStep(s) == RightStep(s)
  {
  }

  /** On either list the conditional wrap of Up and the modular wrap of Left agree exactly
      when the active index lies in 0 .. n, that is, in range or at the count n itself. */
  lemma UpAgreesWithLeftOnlyUpToCount(s: Nav)
    requires s.currentMenu == 1 && (s.isTransmissionSubMenu || !s.functionScreen)
    ensures UpStep(s) == LeftStep(s) <==>
      0 <= (if s.isTransmissionSubMenu then s.transmissionSubMenuIndex else s.subMenuIndex) <= SubMenuCount
  {
  }

  /** Left undoes Right. */
  lemma LeftAfterRight(s: Nav)
    requires IndicesInRange(s)
    ensures LeftStep(RightStep(s)) == s
  {
  }

  /** Right undoes Left. */
  lemma RightAfterLeft(s: Nav)
    requires IndicesInRange(s)
    ensures RightStep(LeftStep(s)) == s
  {
  }

  /** One more step forward from `a mod n` is `(a + 1) mod n`. */
  lemma CycleStep(a: int, n: int)
    requires a >= 0 && n > 0
    ensures (a % n + 1) % n == (a + 1) % n
  {
    var q, r := a / n, a % n;
    assert a == q * n + r;
    if r + 1 < n {
      ModUnique(a + 1, n, q, r + 1);
    } else {
      ModUnique(a + 1, n, q + 1, 0);
    }
    ModUnique(r + 1, n, if r + 1 < n then 0 else 1, if r + 1 < n then r + 1 else 0);
  }

  /** The remainder is determined by any quotient-remainder decomposition. */
  lemma ModUnique(a: int, n: int, q: int, r: int)
    requires n > 0 && 0 <= r < n && a == q * n + r
    ensures a % n == r
  {
    var k, d := q - a / n, a % n - r;
    assert n * k == d by {
      assert a == n * (a / n) + a % n;
      assert n * k == n * q - n * (a / n);
    }
  }

  function RightTimes(s: Nav, k: nat): Nav {
    if k == 0 then s else RightStep(RightTimes(s, k - 1))
  }

  lemma {:induction false} RightTimesAdvances(s: Nav, k: nat)
    requires IndicesInRange(s)
    ensures ActiveLevel(s).None? ==> RightTimes(s, k) == s
    ensures ActiveLevel(s).Some? ==>
      var l := ActiveLevel(s).value;
      RightTimes(s, k) == WithIndex(s, l, (IndexAt(s, l) + k) % LevelCount(l))
  {
    if k > 0 {
      RightTimesAdvances(s, k - 1);
      var before := RightTimes(s, k - 1);
      NavigationMovesActiveIndex(before, Right);
      if ActiveLevel(s).Some? {
        var l := ActiveLevel(s).value;
        var i := IndexAt(s, l);
        CycleStep(i + k - 1, LevelCount(l));
      }
    }
  }

  /** Six Right presses on the main menu, or five on a submenu list, restore the state. */
  lemma RightFullCycle(s: Nav)
    requires IndicesInRange(s)
    ensures ScreenOf(s) == Main ==> RightTimes(s, MainMenuCount) == s
    ensures ScreenOf(s) == Sub ==> RightTimes(s, SubMenuCount) == s
    ensures ScreenOf(s) == Transmission ==> RightTimes(s, TransmissionSubMenuCount) == s
  {
    match ScreenOf(s)
    case Main =>
      RightTimesAdvances(s, MainMenuCount);
      assert (s.mainMenuIndex + 6) % 6 == s.mainMenuIndex;
    case Sub =>
      RightTimesAdvances(s, SubMenuCount);
      assert (s.subMenuIndex + 5) % 5 == s.subMenuIndex;
    case Transmission =>
      RightTimesAdvances(s, TransmissionSubMenuCount);
      assert (s.transmissionSubMenuIndex + 5) % 5 == s.transmissionSubMenuIndex;
    case Function =>
  }

  // ---------------------------------------------------------------------------
  // Select and Back rules

  /** Select on the main menu opens the highlighted category at its first item. */
  lemma SelectFromMainMenu(s: Nav)
    requires Valid(s) && ScreenOf(s) == Main
    ensures SelectAction(s) == None
    ensures ScreenOf(SelectStep(s)) == Sub
    ensures SelectStep(s) == s.(currentMenu := 1, subMenuIndex := 0)
  {
  }

  /** Select on a category list returns to the main menu exactly on the BACK item; any other
      item opens its function screen with the indices unchanged, never the transmission list. */
  lemma SelectInSubMenu(s: Nav)
    requires Valid(s) && ScreenOf(s) == Sub
    ensures SelectAction(s) == None
    ensures ScreenOf(SelectStep(s)) == Main <==> s.subMenuIndex == SubMenuCount - 1
    ensures ScreenOf(SelectStep(s)) == Main ==> SelectStep(s) == s.(currentMenu := 0)
    ensures ScreenOf(SelectStep(s)) != Main ==>
      ScreenOf(SelectStep(s)) == Function && SelectStep(s) == s.(functionScreen := true)
  {
    BackOnlyAtLast(s.mainMenuIndex, s.subMenuIndex);
  }

  /** Select on a function screen runs the bound callback; only INFRARED/TRANSMISSION moves
      the navigation, onto the transmission list at index 0 with the function flag kept. */
  lemma SelectInFunctionScreen(s: Nav)
    requires Valid(s) && ScreenOf(s) == Function
    ensures SelectAction(s) == FunctionActionFor(s.mainMenuIndex, s.subMenuIndex)
    ensures SelectStep(s) != s <==>
      s.mainMenuIndex == InfraredIndex && s.subMenuIndex == TransmissionItemIndex
    ensures SelectStep(s) != s ==>
      && SelectAction(s) == Some(InfraredATKmenu)
      && ScreenOf(SelectStep(s)) == Transmission
      && SelectStep(s) == s.(isTransmissionSubMenu := true, transmissionSubMenuIndex := 0)
  {
  }

  /** Select on the transmission list: BACK returns to the function screen below it; any
      other entry runs its send mode and comes back to the list at index 0. */
  lemma SelectInTransmission(s: Nav)
    requires Valid(s) && ScreenOf(s) == Transmission
    ensures SelectAction(s).None? <==> s.transmissionSubMenuIndex == TransmissionSubMenuCount - 1
    ensures SelectAction(s).None? ==>
      SelectStep(s) == s.(isTransmissionSubMenu := false) && ScreenOf(SelectStep(s)) == Function
    ensures SelectAction(s).Some? ==>
      && SelectAction(s) == Some(InfraredSend(SendModes[s.transmissionSubMenuIndex]))
      && SelectStep(s) == s.(transmissionSubMenuIndex := 0)
      && ScreenOf(SelectStep(s)) == Transmission
  {
    BackOnlyAtLast(s.mainMenuIndex, s.transmissionSubMenuIndex);
  }

  /** The transmission list is entered only by Select on the function screen of the item
      labelled TRANSMISSION under the category labelled INFRARED. */
  lemma EnterTransmissionOnlyFromInfraredTransmission(s: Nav)
    requires Valid(s) && ScreenOf(s) != Transmission
    ensures ScreenOf(SelectStep(s)) == Transmission <==>
      && ScreenOf(s) == Function
      && MainMenuOptions[s.mainMenuIndex] == "INFRARED"
      && SubMenuOptionsFor(s.mainMenuIndex)[s.subMenuIndex] == "TRANSMISSION"
    ensures ScreenOf(SelectStep(s)) == Transmission ==> SelectStep(s).transmissionSubMenuIndex == 0
  {
    InfraredTransmissionPair(s.mainMenuIndex, s.subMenuIndex);
    if ScreenOf(s) == Sub {
      SelectInSubMenu(s);
    } else if ScreenOf(s) == Function {
      SelectInFunctionScreen(s);
    }
  }

  /** Back leaves the transmission list for the function screen under it, the function
      screen for its category list, a category list for the main menu, and does nothing on
      the main menu; no index changes. */
  lemma BackRules(s: Nav)
    requires Valid(s)
    ensures ScreenOf(s) == Transmission ==>
      BackStep(s) == s.(isTransmissionSubMenu := false) && ScreenOf(BackStep(s)) == Function
    ensures ScreenOf(s) == Function ==>
      BackStep(s) == s.(functionScreen := false) && ScreenOf(BackStep(s)) == Sub
    ensures ScreenOf(s) == Sub ==>
      BackStep(s) == s.(currentMenu := 0) && ScreenOf(BackStep(s)) == Main
    ensures ScreenOf(s) == Main ==> BackStep(s) == s
  {
  }

  /** The action dispatch moves the navigation only for INFRARED/TRANSMISSION; every send
      mode returns to the transmission list at index 0. */
  lemma ActionEffects(s: Nav, m: int, k: int, mode: SendMode)
    ensures ExecuteStep(s.(mainMenuIndex := m, subMenuIndex := k)) != s.(mainMenuIndex := m, subMenuIndex := k)
      ==> m == InfraredIndex && k == TransmissionItemIndex
    ensures var t := ActionEffect(InfraredSend(mode), s);
      t.isTransmissionSubMenu && t.transmissionSubMenuIndex == 0 && t.(isTransmissionSubMenu := s.isTransmissionSubMenu, transmissionSubMenuIndex := s.transmissionSubMenuIndex) == s
  {
  }

  // ---------------------------------------------------------------------------
  // A walk through the INFRARED transmission list

  lemma InfraredWalk()
    ensures var s := Run(Initial, [Right, Right, Select]);
      ScreenOf(s) == Sub && s.mainMenuIndex == 2 && s.subMenuIndex == 0
      && SubMenuOptionsFor(s.mainMenuIndex) == ["TRANSMISSION", "RECIEVE", "LIBRARY", "BOMBARDMENT", "BACK"]
    ensures ScreenOf(Run(Initial, [Right, Right, Select, Select])) == Function
    ensures var s := Run(Initial, [Right, Right, Select, Select, Select]);
      ScreenOf(s) == Transmission && s.transmissionSubMenuIndex == 0
    ensures var s := Run(Initial, [Right, Right, Select, Select, Select, Right, Right]);
      ScreenOf(s) == Transmission && TransmissionSubMenuOptions[s.transmissionSubMenuIndex] == "BURST SEND"
    ensures var s := Run(Initial, [Right, Right, Select, Select, Select, Right, Right, Back]);
      ScreenOf(s) == Function && s.subMenuIndex == 0
  {
    var e := [Right, Right, Select, Select, Select, Right, Right, Back];
    assert Run(Initial, e[..1]) == Nav(0, 1, 0, 0, false, false);
    assert e[..2][..1] == e[..1];
    assert Run(Initial, e[..2]) == Nav(0, 2, 0, 0, false, false);
    assert e[..3][..2] == e[..2];
    assert Run(Initial, e[..3]) == Nav(1, 2, 0, 0, false, false);
    assert e[..4][..3] == e[..3];
    assert Run(Initial, e[..4]) == Nav(1, 2, 0, 0, true, false);
    assert e[..5][..4] == e[..4];
    assert Run(Initial, e[..5]) == Nav(1, 2, 0, 0, true, true);
    assert e[..6][..5] == e[..5];
    assert Run(Initial, e[..6]) == Nav(1, 2, 0, 1, true, true);
    assert e[..7][..6] == e[..6];
    assert Run(Initial, e[..7]) == Nav(1, 2, 0, 2, true, true);
    assert e[..7] == e[..7];
    assert Run(Initial, e) == Nav(1, 2, 0, 2, true, false);
    assert e[..3] == [Right, Right, Select];
    assert e[..4] == [Right, Right, Select, Select];
    assert e[..5] == [Right, Right, Select, Select, Select];
    assert e[..7] == [Right, Right, Select, Select, Select, Right, Right];
  }
}

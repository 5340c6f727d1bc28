/** The fixed menu catalog of the navigator: item counts, the main-menu labels and
    icons, the six per-category submenu tables and the transmission submenu table. */
module MenuCatalog {

  const MainMenuCount: int := 6
  const SubMenuCount: int := 5
  const TransmissionSubMenuCount: int := 5

  /** The sentinel label that leaves the current list. */
  const BackLabel: string := "BACK"

  const MainMenuOptions: seq<string> := ["WIFI", "BLE", "INFRARED", "NEOKIN", "GPIO", "SETTINGS"]
  const MenuIcons: seq<string> := ["-}", "{}", "} ~", "^.^", "<>", "#"]

  const WifiSubMenuOptions: seq<string> := ["ATTACKS", "SCAN", "SELECT", "STATUS", "BACK"]
  const BleSubMenuOptions: seq<string> := ["ATTACKS", "SCAN", "STATUS", "CONFIG", "BACK"]
  const InfraredSubMenuOptions: seq<string> := ["TRANSMISSION", "RECIEVE", "LIBRARY", "BOMBARDMENT", "BACK"]
  const NeokinSubMenuOptions: seq<string> := ["STATUS", "VITALS", "LEVEL", "PLAY", "BACK"]
  const GpioSubMenuOptions: seq<string> := ["READ", "WRITE", "TOGGLE", "MONITOR", "BACK"]
  const SettingsSubMenuOptions: seq<string> := ["GENERAL", "APPEARANCE", "DISPLAY", "OTHER", "BACK"]

  const TransmissionSubMenuOptions: seq<string> :=
    ["DIRECT SEND", "REPEAT SEND", "BURST SEND", "ADAPTIVE SEND", "BACK"]

  /** The category tables in main-menu order, as an independent reference for the switch below. */
  const CategoryTables: seq<seq<string>> :=
    [WifiSubMenuOptions, BleSubMenuOptions, InfraredSubMenuOptions,
     NeokinSubMenuOptions, GpioSubMenuOptions, SettingsSubMenuOptions]

  /** Main-menu position of INFRARED and submenu position of its TRANSMISSION entry. */
  const InfraredIndex: int := 2
  const TransmissionItemIndex: int := 0

  /** Sentinel detection. The submenu test compares contents with strcmp; the transmission
      list test compares the table's pointer with the literal "BACK", which is taken here to
      hold exactly when the contents are equal (the compiler merging identical literals). */
  predicate IsBackLabel(item: string) {
    item == BackLabel
  }

  /** The `switch (mainMenuIndex)` that picks the active submenu table; it is written out
      identically in the select handler, the submenu and function-screen painters and the
      action dispatch, and its default case falls back to the WIFI table. */
  function SubMenuOptionsFor(mainIndex: int): (r: seq<string>)
    ensures |r| == SubMenuCount
    ensures IsBackLabel(r[SubMenuCount - 1])
    ensures forall k :: 0 <= k < SubMenuCount - 1 ==> !IsBackLabel(r[k])
  {
    match mainIndex
    case 0 => WifiSubMenuOptions
    case 1 => BleSubMenuOptions
    case 2 => InfraredSubMenuOptions
    case 3 => NeokinSubMenuOptions
    case 4 => GpioSubMenuOptions
    case 5 => SettingsSubMenuOptions
    case _ => WifiSubMenuOptions
  }

  /** No label occurs twice in a table. */
  predicate Distinct(t: seq<string>) {
    forall i, j :: 0 <= i < j < |t| ==> t[i] != t[j]
  }

  /** The count constants and the sizes of all tables agree; icons are aligned with labels. */
  lemma TableSizes()
    ensures MainMenuCount == 6 && SubMenuCount == 5 && TransmissionSubMenuCount == 5
    ensures |MainMenuOptions| == MainMenuCount && |MenuIcons| == MainMenuCount
    ensures |CategoryTables| == MainMenuCount
    ensures forall c :: 0 <= c < MainMenuCount ==> |CategoryTables[c]| == SubMenuCount
    ensures |TransmissionSubMenuOptions| == TransmissionSubMenuCount
  {
  }

  /** The switch maps the categories, in main-menu order, to WIFI, BLE, INFRARED, NEOKIN,
      GPIO and SETTINGS, and every other index to WIFI. */
  lemma CategoryMapping(mainIndex: int)
    ensures 0 <= mainIndex < MainMenuCount ==> SubMenuOptionsFor(mainIndex) == CategoryTables[mainIndex]
    ensures !(0 <= mainIndex < MainMenuCount) ==> SubMenuOptionsFor(mainIndex) == WifiSubMenuOptions
  {
  }

  lemma DistinctTables()
    ensures Distinct(MainMenuOptions) && Distinct(MenuIcons)
    ensures forall c :: 0 <= c < MainMenuCount ==> Distinct(SubMenuOptionsFor(c))
    ensures Distinct(TransmissionSubMenuOptions)
  {
  }

  /** Every list has the sentinel exactly once, at its last position, so label-equality BACK
      detection picks out only that position. */
  lemma BackOnlyAtLast(mainIndex: int, k: int)
    requires 0 <= k < SubMenuCount
    ensures IsBackLabel(SubMenuOptionsFor(mainIndex)[k]) <==> k == SubMenuCount - 1
    ensures IsBackLabel(TransmissionSubMenuOptions[k]) <==> k == TransmissionSubMenuCount - 1
  {
  }

  /** INFRARED/TRANSMISSION is the one (category, item) pair with those labels. */
  lemma InfraredTransmissionPair(mainIndex: int, k: int)
    requires 0 <= mainIndex < MainMenuCount && 0 <= k < SubMenuCount
    ensures (MainMenuOptions[mainIndex] == "INFRARED" && SubMenuOptionsFor(mainIndex)[k] == "TRANSMISSION")
        <==> (mainIndex == InfraredIndex && k == TransmissionItemIndex)
  {
  }
}

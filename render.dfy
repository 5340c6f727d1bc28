/** The four screen painters as sequences of abstract drawing commands on the 128x64
    display, and what they show: every list item on its row, the cursor on the selected
    row only, the titles and the category glyph. */
module MenuRender {
  import opened MenuCatalog
  import opened MenuNav

  datatype Font = Font4x6Tr | Font4x6Tf | Font6x10Tf | FontProfont17Tr | Font6x12Tr

  datatype DrawCmd =
    | ClearBuffer
    | SendBuffer
    | DrawRFrame(x: int, y: int, w: int, h: int, radius: int)
    | SetFont(font: Font)
    | DrawStr(x: int, y: int, text: string)

  /** List layout: the first row's baseline, the row pitch and the two columns. */
  const ListStartY: int := 24
  const RowHeight: int := 10
  const CursorX: int := 4
  const ItemX: int := 12
  const Cursor: string := ">"

  function RowY(i: int): int {
    ListStartY + i * RowHeight
  }

  /** One list row: the cursor (in the small font) when the row is selected, then the item. */
  function ListRow(i: int, item: string, selected: bool): seq<DrawCmd> {
    if selected then
      [SetFont(Font4x6Tf), DrawStr(CursorX, RowY(i), Cursor), SetFont(Font6x10Tf), DrawStr(ItemX, RowY(i), item)]
    else
      [SetFont(Font6x10Tf), DrawStr(ItemX, RowY(i), item)]
  }

  /** The first n rows of a list whose selected index is `selected`. */
  function ListRows(items: seq<string>, selected: int, n: nat): seq<DrawCmd>
    requires n <= |items|
  {
    if n == 0 then [] else ListRows(items, selected, n - 1) + ListRow(n - 1, items[n - 1], n - 1 == selected)
  }

  /** The cursor is drawn on a row exactly when that row is the selected one. */
  lemma {:induction false} CursorOnlyOnSelectedRow(items: seq<string>, selected: int, n: nat, y: int)
    requires n <= |items|
    ensures DrawStr(CursorX, y, Cursor) in ListRows(items, selected, n)
        <==> 0 <= selected < n && y == RowY(selected)
  {
    if n > 0 {
      CursorOnlyOnSelectedRow(items, selected, n - 1, y);
      var row := ListRow(n - 1, items[n - 1], n - 1 == selected);
      assert ListRows(items, selected, n) == ListRows(items, selected, n - 1) + row;
      if n - 1 == selected {
        assert row[1] == DrawStr(CursorX, RowY(selected), Cursor);
      }
    }
  }

  /** Every one of the first n items is drawn in the item column on its own row. */
  lemma {:induction false} EveryItemOnItsRow(items: seq<string>, selected: int, n: nat, i: int)
    requires 0 <= i < n <= |items|
    ensures DrawStr(ItemX, RowY(i), items[i]) in ListRows(items, selected, n)
  {
    var row := ListRow(n - 1, items[n - 1], n - 1 == selected);
    assert ListRows(items, selected, n) == ListRows(items, selected, n - 1) + row;
    if i < n - 1 {
      EveryItemOnItsRow(items, selected, n - 1, i);
    } else {
      assert row[|row| - 1] == DrawStr(ItemX, RowY(i), items[i]);
    }
  }

  /** `snprintf` into a buffer of `size` bytes keeps at most size - 1 characters. */
  function Snprintf(size: int, text: string): (r: string)
    requires size > 0
    ensures |r| < size && r <= text
    ensures |text| < size ==> r == text
    ensures size <= |text| ==> |r| == size - 1
  {
    if |text| < size then text else text[..size - 1]
  }

  /** C's `a / 2` on int, which truncates toward zero. */
  function Half(a: int): (r: int)
    ensures 0 <= a ==> 0 <= a - 2 * r <= 1
    ensures a < 0 ==> -1 <= a - 2 * r <= 0
  {
    if a >= 0 then a / 2 else -((-a) / 2)
  }

  /** Clear, outer frame, title bar, then the title and the close mark in the small font. */
  function ListHeader(title: string): seq<DrawCmd> {
    [ClearBuffer, DrawRFrame(0, 0, 128, 64, 4), DrawRFrame(0, 0, 128, 12, 4),
     SetFont(Font4x6Tr), DrawStr(5, 9, title), DrawStr(110, 8, "- X")]
  }

  const SubMenuTitleSize: int := 20
  const FunctionTitleSize: int := 30
  const TransmissionTitle: string := ":// INFRARED TRANSMISSION"

  function SubMenuTitle(mainIndex: int, subIndex: int): string
    requires 0 <= subIndex < SubMenuCount
  {
    Snprintf(SubMenuTitleSize, ":// " + SubMenuOptionsFor(mainIndex)[subIndex])
  }

  function FunctionTitle(mainIndex: int, subIndex: int): string
    requires 0 <= mainIndex < MainMenuCount && 0 <= subIndex < SubMenuCount
  {
    Snprintf(FunctionTitleSize, MainMenuOptions[mainIndex] + ":" + SubMenuOptionsFor(mainIndex)[subIndex])
  }

  /** No title is ever cut short by its buffer. */
  lemma TitlesFit(mainIndex: int, subIndex: int)
    requires 0 <= mainIndex < MainMenuCount && 0 <= subIndex < SubMenuCount
    ensures SubMenuTitle(mainIndex, subIndex) == ":// " + SubMenuOptionsFor(mainIndex)[subIndex]
    ensures FunctionTitle(mainIndex, subIndex)
         == MainMenuOptions[mainIndex] + ":" + SubMenuOptionsFor(mainIndex)[subIndex]
  {
  }

  function SubMenuScreen(mainIndex: int, subIndex: int): seq<DrawCmd>
    requires 0 <= subIndex < SubMenuCount
  {
    ListHeader(SubMenuTitle(mainIndex, subIndex))
      + ListRows(SubMenuOptionsFor(mainIndex), subIndex, SubMenuCount) + [SendBuffer]
  }

  function TransmissionScreen(selected: int): seq<DrawCmd> {
    ListHeader(TransmissionTitle)
      + ListRows(TransmissionSubMenuOptions, selected, TransmissionSubMenuCount) + [SendBuffer]
  }

  /** The main menu: title, chevrons, the category label centred at the bottom and its icon
      centred above it; `width` measures text in the large font. */
  function MainMenuScreen(mainIndex: int, width: string -> int): seq<DrawCmd>
    requires 0 <= mainIndex < MainMenuCount
  {
    var item := MainMenuOptions[mainIndex];
    var icon := MenuIcons[mainIndex];
    [ClearBuffer, DrawRFrame(0, 0, 128, 64, 4), DrawRFrame(0, 0, 128, 12, 4),
     SetFont(Font4x6Tr), DrawStr(4, 9, "NEOos V.1.0"), DrawStr(110, 8, "- X"),
     DrawStr(119, 55, ">"), DrawStr(5, 55, "<"),
     SetFont(FontProfont17Tr),
     DrawStr(64 - Half(width(item)), 58, item),
     DrawStr(Half(128 - width(icon)), 35, icon),
     SendBuffer]
  }

  /** The status glyph of the function screen, chosen by an if-chain on the category. */
  function FunctionGlyph(mainIndex: int): string {
    if mainIndex == 0 then "-}"
    else if mainIndex == 1 then "{}"
    else if mainIndex == 2 then "} ~"
    else if mainIndex == 3 then "^.^"
    else if mainIndex == 4 then "<>"
    else "#"
  }

  function FunctionScreen(mainIndex: int, subIndex: int): seq<DrawCmd>
    requires 0 <= mainIndex < MainMenuCount && 0 <= subIndex < SubMenuCount
  {
    [ClearBuffer, DrawRFrame(0, 0, 128, 64, 4), DrawRFrame(0, 0, 128, 10, 3),
     SetFont(Font4x6Tr), DrawStr(109, 7, "- X"),
     DrawStr(8, 8, FunctionTitle(mainIndex, subIndex)),
     SetFont(Font6x12Tr), DrawStr(111, 23, FunctionGlyph(mainIndex)),
     SendBuffer]
  }

  /** The function-screen glyph of each category is that category's main-menu icon. */
  lemma FunctionGlyphIsMenuIcon(mainIndex: int)
    requires 0 <= mainIndex < MainMenuCount
    ensures FunctionGlyph(mainIndex) == MenuIcons[mainIndex]
  {
  }

  /** The render pass paints the screen the fields denote. */
  function Render(s: Nav, width: string -> int): seq<DrawCmd>
    requires IndicesInRange(s)
  {
    match ScreenOf(s)
    case Main => MainMenuScreen(s.mainMenuIndex, width)
    case Transmission => TransmissionScreen(s.transmissionSubMenuIndex)
    case Function => FunctionScreen(s.mainMenuIndex, s.subMenuIndex)
    case Sub => SubMenuScreen(s.mainMenuIndex, s.subMenuIndex)
  }

  /** A category list shows every item on its row, the cursor only on the selected row, and
      the selected item in the title. */
  lemma SubMenuScreenShowsSelection(mainIndex: int, subIndex: int, i: int, y: int)
    requires 0 <= mainIndex < MainMenuCount && 0 <= subIndex < SubMenuCount && 0 <= i < SubMenuCount
    ensures var cmds := SubMenuScreen(mainIndex, subIndex);
      && DrawStr(ItemX, RowY(i), SubMenuOptionsFor(mainIndex)[i]) in cmds
      && (DrawStr(CursorX, y, Cursor) in cmds <==> y == RowY(subIndex))
      && DrawStr(5, 9, ":// " + SubMenuOptionsFor(mainIndex)[subIndex]) in cmds
  {
    var items := SubMenuOptionsFor(mainIndex);
    var head := ListHeader(SubMenuTitle(mainIndex, subIndex));
    var rows := ListRows(items, subIndex, SubMenuCount);
    TitlesFit(mainIndex, subIndex);
    EveryItemOnItsRow(items, subIndex, SubMenuCount, i);
    CursorOnlyOnSelectedRow(items, subIndex, SubMenuCount, y);
    assert SubMenuScreen(mainIndex, subIndex) == head + rows + [SendBuffer];
    assert head[4] == DrawStr(5, 9, ":// " + items[subIndex]);
    assert DrawStr(CursorX, y, Cursor) !in head;
  }

  /** The transmission list shows every entry on its row and the cursor exactly on the row
      of its index, or nowhere when the index is out of range. */
  lemma TransmissionScreenShowsSelection(selected: int, i: int, y: int)
    requires 0 <= i < TransmissionSubMenuCount
    ensures var cmds := TransmissionScreen(selected);
      && DrawStr(ItemX, RowY(i), TransmissionSubMenuOptions[i]) in cmds
      && (DrawStr(CursorX, y, Cursor) in cmds
          <==> 0 <= selected < TransmissionSubMenuCount && y == RowY(selected))
  {
    var head := ListHeader(TransmissionTitle);
    var rows := ListRows(TransmissionSubMenuOptions, selected, TransmissionSubMenuCount);
    EveryItemOnItsRow(TransmissionSubMenuOptions, selected, TransmissionSubMenuCount, i);
    CursorOnlyOnSelectedRow(TransmissionSubMenuOptions, selected, TransmissionSubMenuCount, y);
    assert TransmissionScreen(selected) == head + rows + [SendBuffer];
    assert DrawStr(CursorX, y, Cursor) !in head;
  }

  /** The main menu shows the selected category's label and, above it, the icon at the same
      index, each centred on column 64 to within the rounding of the halved width. */
  lemma MainMenuScreenShowsCategory(mainIndex: int, width: string -> int)
    requires 0 <= mainIndex < MainMenuCount
    ensures var cmds := MainMenuScreen(mainIndex, width);
      var item, icon := MainMenuOptions[mainIndex], MenuIcons[mainIndex];
      && (exists x :: DrawStr(x, 58, item) in cmds)
      && (exists x :: DrawStr(x, 35, icon) in cmds)
      && (forall x :: DrawStr(x, 58, item) in cmds ==> -1 <= 2 * x + width(item) - 128 <= 1)
      && (forall x :: DrawStr(x, 35, icon) in cmds ==> -1 <= 2 * x + width(icon) - 128 <= 1)
  {
    var cmds := MainMenuScreen(mainIndex, width);
    var item, icon := MainMenuOptions[mainIndex], MenuIcons[mainIndex];
    assert cmds[9] == DrawStr(64 - Half(width(item)), 58, item);
    assert cmds[10] == DrawStr(Half(128 - width(icon)), 35, icon);
    forall x | DrawStr(x, 58, item) in cmds
      ensures -1 <= 2 * x + width(item) - 128 <= 1
    {
      assert x == 64 - Half(width(item));
    }
    forall x | DrawStr(x, 35, icon) in cmds
      ensures -1 <= 2 * x + width(icon) - 128 <= 1
    {
      assert x == Half(128 - width(icon));
    }
  }

  /** The function screen names the category and the item and shows the category's icon. */
  lemma FunctionScreenShowsContext(mainIndex: int, subIndex: int)
    requires 0 <= mainIndex < MainMenuCount && 0 <= subIndex < SubMenuCount
    ensures var cmds := FunctionScreen(mainIndex, subIndex);
      && DrawStr(8, 8, MainMenuOptions[mainIndex] + ":" + SubMenuOptionsFor(mainIndex)[subIndex]) in cmds
      && DrawStr(111, 23, MenuIcons[mainIndex]) in cmds
  {
    TitlesFit(mainIndex, subIndex);
    FunctionGlyphIsMenuIcon(mainIndex);
    var cmds := FunctionScreen(mainIndex, subIndex);
    assert cmds[5] == DrawStr(8, 8, FunctionTitle(mainIndex, subIndex));
    assert cmds[7] == DrawStr(111, 23, FunctionGlyph(mainIndex));
  }
}

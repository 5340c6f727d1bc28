/** The menu object: six navigation fields that the button handlers, the action dispatch
    and the action callbacks update in place, and the painters that read them. Each method
    is proved against the value-level functions of MenuNav and MenuRender. */
module MenuSystem {
  import opened MenuCatalog
  import opened MenuNav
  import opened MenuRender

  class MenuSystem {
    var currentMenu: int
    var mainMenuIndex: int
    var subMenuIndex: int
    var transmissionSubMenuIndex: int
    var functionScreen: bool
    var isTransmissionSubMenu: bool

    /** The action callbacks invoked so far, oldest first. */
    ghost var trace: seq<Action>

    function State(): Nav
      reads this
    {
      Nav(currentMenu, mainMenuIndex, subMenuIndex, transmissionSubMenuIndex,
          functionScreen, isTransmissionSubMenu)
    }

    /** The screen the fields denote, in the render pass's priority order. */
    ghost function Screen(): Screen
      reads this
    {
      ScreenOf(State())
    }

    ghost predicate Valid()
      reads this
    {
      MenuNav.Valid(State())
    }

    constructor ()
      ensures State() == Initial && Screen() == Main && Valid()
      ensures trace == []
    {
      currentMenu, mainMenuIndex, subMenuIndex, transmissionSubMenuIndex := 0, 0, 0, 0;
      functionScreen, isTransmissionSubMenu := false, false;
      trace := [];
    }

    // -------------------------------------------------------------------------
    // Button handlers

    method HandleSelectButton()
      requires Valid()
      modifies this
      ensures Valid()
      ensures State() == SelectStep(old(State()))
      ensures trace == old(trace) + Fired(SelectAction(old(State())))
    {
      ghost var before := State();
      if currentMenu == 0 {
        currentMenu := 1;
        subMenuIndex := 0;
        functionScreen := false;
      } else if isTransmissionSubMenu {
        // The source compares the table entry's pointer with the literal "BACK"; this
        // assumes identical literals share storage, so that it amounts to label equality.
        if IsBackLabel(TransmissionSubMenuOptions[transmissionSubMenuIndex]) {
          isTransmissionSubMenu := false;
          currentMenu := 1;
        } else {
          match transmissionSubMenuIndex {
            case 0 => RunSendMode(DirectSend);
            case 1 => RunSendMode(RepeatSend);
            case 2 => RunSendMode(BurstSend);
            case 3 => RunSendMode(AdaptiveSend);
            case _ =>
          }
        }
      } else if functionScreen {
        ExecuteFunctionAction();
      } else {
        var options := SubMenuOptionsFor(mainMenuIndex);
        if IsBackLabel(options[subMenuIndex]) {
          currentMenu := 0;
        } else {
          functionScreen := true;
        }
      }
      StepPreservesValid(before, Select);
    }

    method HandleBackButton()
      requires Valid()
      modifies this
      ensures Valid()
      ensures State() == BackStep(old(State())) && trace == old(trace)
    {
      ghost var before := State();
      if isTransmissionSubMenu {
        isTransmissionSubMenu := false;
        currentMenu := 1;
      } else if functionScreen {
        functionScreen := false;
      } else if currentMenu == 1 {
        currentMenu := 0;
      }
      StepPreservesValid(before, Back);
    }

    /** The B-button handler: the same transitions as the back handler. */
    method HandleBButton()
      requires Valid()
      modifies this
      ensures Valid()
      ensures State() == BackStep(old(State())) && trace == old(trace)
    {
      ghost var before := State();
      if isTransmissionSubMenu {
        isTransmissionSubMenu := false;
        currentMenu := 1;
      } else if functionScreen {
        functionScreen := false;
      } else if currentMenu == 1 {
        currentMenu := 0;
      }
      StepPreservesValid(before, Back);
    }

    method HandleLeftButton()
      requires Valid()
      modifies this
      ensures Valid()
      ensures State() == LeftStep(old(State())) && trace == old(trace)
    {
      ghost var before := State();
      if currentMenu == 0 {
        mainMenuIndex := CRem(mainMenuIndex + MainMenuCount - 1, MainMenuCount);
      } else if isTransmissionSubMenu {
        transmissionSubMenuIndex :=
          CRem(transmissionSubMenuIndex + TransmissionSubMenuCount - 1, TransmissionSubMenuCount);
      } else if !functionScreen {
        subMenuIndex := CRem(subMenuIndex + SubMenuCount - 1, SubMenuCount);
      }
      StepPreservesValid(before, Left);
    }

    method HandleRightButton()
      requires Valid()
      modifies this
      ensures Valid()
      ensures State() == RightStep(old(State())) && trace == old(trace)
    {
      ghost var before := State();
      if currentMenu == 0 {
        mainMenuIndex := CRem(mainMenuIndex + 1, MainMenuCount);
      } else if isTransmissionSubMenu {
        transmissionSubMenuIndex := CRem(transmissionSubMenuIndex + 1, TransmissionSubMenuCount);
      } else if !functionScreen {
        subMenuIndex := CRem(subMenuIndex + 1, SubMenuCount);
      }
      StepPreservesValid(before, Right);
    }

    method HandleUpButton()
      requires Valid()
      modifies this
      ensures Valid()
      ensures State() == UpStep(old(State())) && trace == old(trace)
    {
      ghost var before := State();
      if currentMenu == 0 {
        mainMenuIndex := CRem(mainMenuIndex + MainMenuCount - 1, MainMenuCount);
      } else if isTransmissionSubMenu {
        transmissionSubMenuIndex :=
          if transmissionSubMenuIndex > 0 then transmissionSubMenuIndex - 1
          else TransmissionSubMenuCount - 1;
      } else if !functionScreen {
        subMenuIndex := if subMenuIndex > 0 then subMenuIndex - 1 else SubMenuCount - 1;
      }
      StepPreservesValid(before, Up);
    }

    method HandleDownButton()
      requires Valid()
      modifies this
      ensures Valid()
      ensures State() == DownStep(old(State())) && trace == old(trace)
    {
      ghost var before := State();
      if currentMenu == 0 {
        mainMenuIndex := CRem(mainMenuIndex + 1, MainMenuCount);
      } else if isTransmissionSubMenu {
        transmissionSubMenuIndex :=
          if transmissionSubMenuIndex < TransmissionSubMenuCount - 1 then transmissionSubMenuIndex + 1
          else 0;
      } else if !functionScreen {
        subMenuIndex := if subMenuIndex < SubMenuCount - 1 then subMenuIndex + 1 else 0;
      }
      StepPreservesValid(before, Down);
    }

    // -------------------------------------------------------------------------
    // Action dispatch and the callbacks that move the navigation

    /** Runs the callback bound to the current (category, item) pair, if any. */
    method ExecuteFunctionAction()
      modifies this
      ensures State() == ExecuteStep(old(State()))
      ensures trace == old(trace) + Fired(FunctionActionFor(old(mainMenuIndex), old(subMenuIndex)))
    {
      if mainMenuIndex == 0 {
        if subMenuIndex == 0 { trace := trace + [WifiScan]; }
        if subMenuIndex == 1 { trace := trace + [WifiConnect]; }
      } else if mainMenuIndex == 1 {
        if subMenuIndex == 0 { trace := trace + [BleConnect]; }
      } else if mainMenuIndex == 2 {
        match subMenuIndex {
          case 0 => OpenTransmissionMenu();
          case 1 => trace := trace + [InfraredReceive];
          case _ =>
        }
      } else if mainMenuIndex == 4 {
        if subMenuIndex == 0 { trace := trace + [GpioRead]; }
        if subMenuIndex == 1 { trace := trace + [GpioWrite]; }
        if subMenuIndex == 2 { trace := trace + [GpioToggle]; }
        if subMenuIndex == 3 { trace := trace + [GpioMonitor]; }
      }
    }

    /** The INFRARED ATK menu callback: shows the transmission list at its first entry. */
    method OpenTransmissionMenu()
      modifies this
      ensures State() == ActionEffect(InfraredATKmenu, old(State()))
      ensures trace == old(trace) + [InfraredATKmenu]
    {
      trace := trace + [InfraredATKmenu];
      currentMenu := 1;
      isTransmissionSubMenu := true;
      transmissionSubMenuIndex := 0;
    }

    /** A send-mode callback, from the moment its wait for the B button ends. */
    method RunSendMode(mode: SendMode)
      modifies this
      ensures State() == ActionEffect(InfraredSend(mode), old(State()))
      ensures trace == old(trace) + [InfraredSend(mode)]
    {
      trace := trace + [InfraredSend(mode)];
      isTransmissionSubMenu := true;
      transmissionSubMenuIndex := 0;
    }

    // -------------------------------------------------------------------------
    // Painters

    /** The render pass: paints the screen the fields denote; `width` measures text in the
        main menu's large font. */
    method Update(width: string -> int) returns (cmds: seq<DrawCmd>)
      requires Valid()
      ensures cmds == Render(State(), width)
    {
      if currentMenu == 0 {
        cmds := DrawMainMenu(width);
      } else if isTransmissionSubMenu {
        cmds := DrawTransmissionSubMenu();
      } else if functionScreen {
        cmds := DrawFunctionScreen();
      } else {
        cmds := DrawSubMenu();
      }
    }

    method DrawTransmissionSubMenu() returns (cmds: seq<DrawCmd>)
      ensures cmds == TransmissionScreen(transmissionSubMenuIndex)
    {
      cmds := [ClearBuffer, DrawRFrame(0, 0, 128, 64, 4), DrawRFrame(0, 0, 128, 12, 4)];
      cmds := cmds + [SetFont(Font4x6Tr), DrawStr(5, 9, TransmissionTitle), DrawStr(110, 8, "- X")];
      var startY := ListStartY;
      for i := 0 to TransmissionSubMenuCount
        invariant cmds == ListHeader(TransmissionTitle)
                          + ListRows(TransmissionSubMenuOptions, transmissionSubMenuIndex, i)
      {
        var yPos := startY + i * RowHeight;
        var row;
        if i == transmissionSubMenuIndex {
          row := [SetFont(Font4x6Tf), DrawStr(CursorX, yPos, Cursor),
                  SetFont(Font6x10Tf), DrawStr(ItemX, yPos, TransmissionSubMenuOptions[i])];
        } else {
          row := [SetFont(Font6x10Tf), DrawStr(ItemX, yPos, TransmissionSubMenuOptions[i])];
        }
        cmds := cmds + row;
      }
      cmds := cmds + [SendBuffer];
    }

    method DrawSubMenu() returns (cmds: seq<DrawCmd>)
      requires 0 <= subMenuIndex < SubMenuCount
      ensures cmds == SubMenuScreen(mainMenuIndex, subMenuIndex)
    {
      cmds := [ClearBuffer, DrawRFrame(0, 0, 128, 64, 4), DrawRFrame(0, 0, 128, 12, 4)];
      var options := SubMenuOptionsFor(mainMenuIndex);
      var title := Snprintf(SubMenuTitleSize, ":// " + options[subMenuIndex]);
      cmds := cmds + [SetFont(Font4x6Tr), DrawStr(5, 9, title), DrawStr(110, 8, "- X")];
      var startY := ListStartY;
      for i := 0 to SubMenuCount
        invariant cmds == ListHeader(title) + ListRows(options, subMenuIndex, i)
      {
        var yPos := startY + i * RowHeight;
        var row;
        if i == subMenuIndex {
          row := [SetFont(Font4x6Tf), DrawStr(CursorX, yPos, Cursor),
                  SetFont(Font6x10Tf), DrawStr(ItemX, yPos, options[i])];
        } else {
          row := [SetFont(Font6x10Tf), DrawStr(ItemX, yPos, options[i])];
        }
        cmds := cmds + row;
      }
      cmds := cmds + [SendBuffer];
    }

    method DrawMainMenu(width: string -> int) returns (cmds: seq<DrawCmd>)
      requires 0 <= mainMenuIndex < MainMenuCount
      ensures cmds == MainMenuScreen(mainMenuIndex, width)
    {
      cmds := [ClearBuffer, DrawRFrame(0, 0, 128, 64, 4), DrawRFrame(0, 0, 128, 12, 4)];
      cmds := cmds + [SetFont(Font4x6Tr), DrawStr(4, 9, "NEOos V.1.0"), DrawStr(110, 8, "- X")];
      cmds := cmds + [DrawStr(119, 55, ">"), DrawStr(5, 55, "<")];
      cmds := cmds + [SetFont(FontProfont17Tr)];
      var textWidth := width(MainMenuOptions[mainMenuIndex]);
      cmds := cmds + [DrawStr(64 - Half(textWidth), 58, MainMenuOptions[mainMenuIndex])];
      var icon := MenuIcons[mainMenuIndex];
      var iconWidth := width(icon);
      var iconX := Half(128 - iconWidth);
      cmds := cmds + [DrawStr(iconX, 35, icon), SendBuffer];
    }

    method DrawFunctionScreen() returns (cmds: seq<DrawCmd>)
      requires 0 <= mainMenuIndex < MainMenuCount && 0 <= subMenuIndex < SubMenuCount
      ensures cmds == FunctionScreen(mainMenuIndex, subMenuIndex)
    {
      cmds := [ClearBuffer, DrawRFrame(0, 0, 128, 64, 4), DrawRFrame(0, 0, 128, 10, 3)];
      var options := SubMenuOptionsFor(mainMenuIndex);
      var mainMenuName := MainMenuOptions[mainMenuIndex];
      var functionName := options[subMenuIndex];
      cmds := cmds + [SetFont(Font4x6Tr), DrawStr(109, 7, "- X")];
      var titleName := Snprintf(FunctionTitleSize, mainMenuName + ":" + functionName);
      cmds := cmds + [DrawStr(8, 8, titleName), SetFont(Font6x12Tr)];
      var glyph;
      if mainMenuIndex == 0 {
        glyph := "-}";
      } else if mainMenuIndex == 1 {
        glyph := "{}";
      } else if mainMenuIndex == 2 {
        glyph := "} ~";
      } else if mainMenuIndex == 3 {
        glyph := "^.^";
      } else if mainMenuIndex == 4 {
        glyph := "<>";
      } else {
        glyph := "#";
      }
      cmds := cmds + [DrawStr(111, 23, glyph), SendBuffer];
    }
  }
}

/**
 * The earlier menu, menu_overlay.py: one card per non-header menu item, a selection cursor
 * that wraps around, exactly one highlighted card after each move, and a chosen card that
 * launches its command and closes the window.
 */
module MenuOverlay {
  import opened Wrappers
  import opened Palette
  import opened Commands
  import opened Arithmetic
  import opened MenuList

  /** What a card is built from: its texts, the command its action launches (if any) and the danger flag. */
  datatype CardData = CardData(title: string, desc: string, fn: Option<Command>, danger: bool)

  /** `DashboardCard`: the highlight flag and the colours it shows. */
  class Card {
    const data: CardData
    var isSelected: bool
    var look: Look

    /** The colours always follow the highlight flag. */
    ghost predicate Valid()
      reads this
    {
      look == LookOf(isSelected, data.danger)
    }

    constructor (data: CardData)
      ensures this.data == data
      ensures !isSelected && Valid()
    {
      this.data := data;
      isSelected := false;
      look := Look(CardBg, if data.danger then Danger else TextMain, TextSec);
    }

    /** `set_highlight`: nothing when the flag already has the requested value, otherwise set it and recolour. */
    method SetHighlight(active: bool)
      requires Valid()
      modifies this
      ensures isSelected == active && Valid()
      ensures old(isSelected) == active ==> look == old(look)
    {
      if isSelected == active {
        return;
      }
      isSelected := active;
      var bg := if active then CardHover else CardBg;
      if active && data.danger {
        bg := Danger;
      }
      look := Look(bg, if active then TextMain else (if data.danger then Danger else TextMain),
                   if active then TextMain else TextSec);
    }
  }

  /** Whether the window still exists. */
  datatype WindowState = Open | Destroyed

  /** The cards `build_menu` creates: one new card per non-header item, in menu order. */
  method BuildCards(items: seq<MenuItem<CardData>>) returns (built: seq<Card>)
    ensures |built| == |CardsOf(items)|
    ensures forall i :: 0 <= i < |built| ==> built[i].data == CardsOf(items)[i]
    ensures forall i :: 0 <= i < |built| ==> fresh(built[i]) && built[i].Valid()
    ensures forall i, j :: 0 <= i < j < |built| ==> built[i] != built[j]
  {
    built := [];
    var k := 0;
    while k < |items|
      invariant 0 <= k <= |items|
      invariant |built| == |CardsOf(items[..k])|
      invariant forall i :: 0 <= i < |built| ==> built[i].data == CardsOf(items[..k])[i]
      invariant forall i :: 0 <= i < |built| ==> fresh(built[i]) && built[i].Valid()
      invariant forall i, j :: 0 <= i < j < |built| ==> built[i] != built[j]
    {
      CardsOfPrefix(items, k);
      if items[k].Item? {
        var c := new Card(items[k].data);
        built := built + [c];
      }
      k := k + 1;
    }
    assert items[..k] == items;
  }

  /** `OverlayApp`: the cards, the cursor, the window, and the commands launched so far. */
  class OverlayApp {
    const cards: seq<Card>
    var selectedIndex: int
    var window: WindowState
    var launched: seq<Command>

    ghost predicate Valid()
      reads this, cards
    {
      && (forall i, j :: 0 <= i < j < |cards| ==> cards[i] != cards[j])
      && (forall i :: 0 <= i < |cards| ==> cards[i].Valid())
      && 0 <= selectedIndex
      && (selectedIndex < |cards| || selectedIndex == 0)
    }

    /** Exactly the card under the cursor is highlighted. */
    ghost predicate HighlightsSelection()
      reads this, cards
    {
      forall i :: 0 <= i < |cards| ==> cards[i].isSelected == (i == selectedIndex)
    }

    /** The constructor with `build_menu`: one card per non-header item, then the first card highlighted. */
    constructor (items: seq<MenuItem<CardData>>)
      ensures Valid() && HighlightsSelection()
      ensures |cards| == |CardsOf(items)|
      ensures forall i :: 0 <= i < |cards| ==> cards[i].data == CardsOf(items)[i]
      ensures selectedIndex == 0 && window == Open && launched == []
    {
      var built := BuildCards(items);
      cards := built;
      selectedIndex := 0;
      window := Open;
      launched := [];
      new;
      UpdateSelectionVisuals();
    }

    /** `update_selection_visuals`: highlight the card under the cursor and no other. */
    method UpdateSelectionVisuals()
      requires Valid()
      modifies cards
      ensures Valid() && HighlightsSelection()
      ensures forall i :: 0 <= i < |cards| && old(cards[i].isSelected) == (i == selectedIndex) ==>
        cards[i].look == old(cards[i].look)
    {
      var i := 0;
      while i < |cards|
        invariant 0 <= i <= |cards|
        invariant Valid()
        invariant forall j :: 0 <= j < i ==> cards[j].isSelected == (j == selectedIndex)
        invariant forall j :: 0 <= j < i && old(cards[j].isSelected) == (j == selectedIndex) ==>
          cards[j].look == old(cards[j].look)
        invariant forall j :: i <= j < |cards| ==>
          cards[j].isSelected == old(cards[j].isSelected) && cards[j].look == old(cards[j].look)
      {
        cards[i].SetHighlight(i == selectedIndex);
        i := i + 1;
      }
    }

    /**
     * `move_selection`: the cursor moves by `d` and wraps around; with no cards the modulo
     * raises, which `ok == false` stands for, and nothing changes.
     */
    method MoveSelection(d: int) returns (ok: bool)
      requires Valid()
      modifies this, cards
      ensures Valid()
      ensures ok <==> |cards| > 0
      ensures ok ==> selectedIndex == Wrapped(old(selectedIndex), d, |cards|) && HighlightsSelection()
      ensures !ok ==> selectedIndex == old(selectedIndex)
      ensures window == old(window) && launched == old(launched)
    {
      if |cards| == 0 {
        return false;
      }
      selectedIndex := (selectedIndex + d) % |cards|;
      UpdateSelectionVisuals();
      ok := true;
    }

    /** `run_action`: a command is launched, then the window is destroyed; an empty action does nothing. */
    method RunAction(fn: Option<Command>)
      modifies this
      ensures fn.Some? ==> launched == old(launched) + [fn.value] && window == Destroyed
      ensures fn.None? ==> launched == old(launched) && window == old(window)
      ensures selectedIndex == old(selectedIndex)
    {
      if fn.Some? {
        launched := launched + [fn.value];
        window := Destroyed;
      }
    }

    /** `trigger_selected`: the card under the cursor runs its action; with no cards the indexing raises. */
    method TriggerSelected() returns (ok: bool)
      requires Valid()
      modifies this
      ensures Valid()
      ensures ok <==> |cards| > 0
      ensures ok ==> var fn := cards[selectedIndex].data.fn;
        && launched == old(launched) + (if fn.Some? then [fn.value] else [])
        && window == (if fn.Some? then Destroyed else old(window))
      ensures !ok ==> launched == old(launched) && window == old(window)
      ensures selectedIndex == old(selectedIndex)
    {
      if |cards| == 0 {
        return false;
      }
      RunAction(cards[selectedIndex].data.fn);
      ok := true;
    }

    /** The Escape binding: the window is destroyed. */
    method Escape()
      modifies this
      ensures window == Destroyed
      ensures selectedIndex == old(selectedIndex) && launched == old(launched)
    {
      window := Destroyed;
    }

    /** The mouse entering (`active`) or leaving a card highlights or unhighlights that card alone. */
    method Hover(i: int, active: bool)
      requires Valid() && 0 <= i < |cards|
      modifies cards[i]
      ensures Valid()
      ensures cards[i].isSelected == active
    {
      cards[i].SetHighlight(active);
    }
  }

  // ---------------------------------------------------------------------------
  // The menu as configured


  const AppCards: seq<CardData> := [
    CardData("EmulationStation", "Volver al sistema principal", Some(["emulationstation"]), false),
    CardData("Steam Mode", "Lanzar Big Picture", Some(["flatpak", "run", "com.valvesoftware.Steam"]), false),
    CardData("Waydroid", "Contenedor Android", Some(["waydroid", "show-full-ui"]), false),
    CardData("Xbox Cloud", "Juego en la nube",
      Some(["flatpak", "run", "com.google.Chrome", "--kiosk", "https://www.xbox.com/play"]), false),
    CardData("YouTube", "Ver videos online",
      Some(["flatpak", "run", "com.google.Chrome", "--kiosk", "https://www.youtube.com/tv"]), false)
  ]

  const SystemCards: seq<CardData> := [
    CardData("Subir Volumen", "+5%", Some(["pactl", "set-sink-volume", "@DEFAULT_SINK@", "+5%"]), false),
    CardData("Bajar Volumen", "-5%", Some(["pactl", "set-sink-volume", "@DEFAULT_SINK@", "-5%"]), false),
    CardData("Wi-Fi", "Configurar red", Some([Interpreter, SettingsScript, "wifi"]), false)
  ]

  const PowerCards: seq<CardData> := [
    CardData("Reiniciar", "Reboot system", Some(["systemctl", "reboot"]), true),
    CardData("Apagar", "Shutdown system", Some(["systemctl", "poweroff"]), true)
  ]

  /** `MENU_ITEMS`: three sections, each a header followed by its cards. */
  const MenuItems: seq<MenuItem<CardData>> :=
    [Header("APLICACIONES")] + ItemsOf(AppCards)
    + [Header("SISTEMA")] + ItemsOf(SystemCards)
    + [Header("ENERGÍA")] + ItemsOf(PowerCards)

  /**
   * The configured menu has ten cards, the sections' cards in order; exactly the last two,
   * reboot and shutdown, are danger cards.
   */
  lemma ConfiguredMenu()
    ensures CardsOf(MenuItems) == AppCards + SystemCards + PowerCards
    ensures |CardsOf(MenuItems)| == 10
    ensures forall i :: 0 <= i < 10 ==> (CardsOf(MenuItems)[i].danger <==> i >= 8)
  {
    CardsOfSections("APLICACIONES", AppCards, "SISTEMA", SystemCards, "ENERGÍA", PowerCards);
    var all := AppCards + SystemCards + PowerCards;
    assert forall i :: 0 <= i < 8 ==> !all[i].danger;
  }
}

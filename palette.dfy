/**
 * The colours of a menu card and the rule that picks them from whether the card is
 * highlighted and whether it is a "danger" card. Both menus use the same palette and the
 * same rule.
 */
module Palette {

  /** The five colours of the card rule: `C_CARD_BG`, `C_CARD_HOVER`, `C_TEXT_MAIN`, `C_TEXT_SEC`, `C_DANGER`. */
  datatype Colour = CardBg | CardHover | TextMain | TextSec | Danger

  /** The colour as the programs write it: `#` and six hexadecimal digits. */
  function Hex(c: Colour): (h: string)
    ensures |h| == 7 && h[0] == '#'
  {
    match c
    case CardBg => "#111111"
    case CardHover => "#1E6BFF"
    case TextMain => "#FFFFFF"
    case TextSec => "#AAAAAA"
    case Danger => "#CF0000"
  }

  /** The colours a card shows: its background, its title and its description. */
  datatype Look = Look(bg: Colour, title: Colour, desc: Colour)

  /**
   * The colours of a card, highlighted (`active`) or not. The rule keeps every card legible
   * and the highlight visible: title and description never take the background's colour,
   * and only a card that is not highlighted has the plain card background.
   */
  function LookOf(active: bool, danger: bool): (l: Look)
    ensures l.title != l.bg && l.desc != l.bg
    ensures l.bg == CardBg <==> !active
  {
    var bg := if active && danger then Danger else if active then CardHover else CardBg;
    var title := if active then TextMain else if danger then Danger else TextMain;
    var desc := if active then TextMain else TextSec;
    Look(bg, title, desc)
  }

  /**
   * The rule case by case: a highlighted danger card is red, another highlighted card is the
   * hover blue, any other card has the card background; titles are white except on a danger
   * card that is not highlighted, where they are red; descriptions are white when highlighted.
   */
  lemma LookRule(active: bool, danger: bool)
    ensures LookOf(active, danger).bg == (if !active then CardBg else if danger then Danger else CardHover)
    ensures LookOf(active, danger).title == (if !active && danger then Danger else TextMain)
    ensures LookOf(active, danger).desc == (if active then TextMain else TextSec)
  {
  }
}

# M-OS overlay: trigger daemon and menus, modelled in Dafny

This project models the logic of three programs of the M-OS test setup.

- **`overlay_daemon.py`** watches every input device for a key combo, such as Ctrl+M on a keyboard or Start on a pad.
  - It keeps one shared set of held keys.
  - It applies a cooldown between fires.
  - It tests the keyboard combo first and the joystick combo second.
  - When a combo fires, it starts the menu unless a menu process is already running.
- **`menu_overlay.py`**, the earlier menu, is a list of cards.
  - Header items produce no card.
  - The cursor wraps with `(i + d) % n`.
  - There is a highlight colour rule.
  - A chosen card launches its command and closes the window.
- **`menu_overlay3.py`**, the dashboard menu, has these parts:
  - a cursor that clamps at the ends (or wraps when `WRAP_AROUND` is set);
  - a window that a `toggle` message on the control socket shows and withdraws;
  - card actions that hide the window, run a fallback chain of commands, or do nothing;
  - status texts parsed from the output of `pactl`, `nmcli`, `brightnessctl` and `gsettings`.

Modules, one per concern:

| file | module | what it holds |
|---|---|---|
| wrappers.dfy | `Wrappers` | `Option`, `Result` |
| text.dfy | `Text` | the Python string operations the programs rely on: `isspace`, `strip`, `split()`, `in`, the first position of a character (what `":" in res` tests and `res.split(":", 1)` cuts at), `isdigit`, `str(int)` |
| trigger_config.dfy | `TriggerConfig` | `load_config` and the option defaulting at the top of `main` |
| trigger_engine.dfy | `TriggerEngine` | `matches_combo`, the loop body as a step function (`Next`), replay over an event sequence, and the `Daemon` class that updates the state in place |
| arithmetic.dfy | `Arithmetic` | `(i + d) % n` and two helper facts about `%` |
| commands.dfy | `Commands` | command lines |
| menus.dfy | `MenuList` | menu lists of headers and items, and the header filtering both menus do |
| palette.dfy | `Palette` | the colours and the highlight rule; both menus use the same rule |
| menu_overlay.dfy | `MenuOverlay` | the earlier menu: `Card` and `OverlayApp` classes, `MENU_ITEMS` |
| status_text.dfy | `StatusText` | the volume, Wi-Fi and brightness texts and the night-light reading |
| actions.dfy | `Actions` | card actions and `run_threaded_action` |
| menu_overlay3.dfy | `MenuOverlay3` | the dashboard menu: `Card` and `App` classes, the show/withdraw state machine, scrolling, `MENU_ITEMS` |

Modelling choices:

- **Time** is integer milliseconds. The daemon's gate `now - last_fire < cooldown_ms / 1000.0` becomes `now - lastFire < cooldownMs`.
- **Outside results are inputs.** Anything the programs learn from outside is a parameter of the model:
  - which events arrive, and when;
  - whether `pgrep` finds a running menu;
  - what a status command printed (`None` when it raised);
  - whether each command of a chain succeeds;
  - the geometry `ensure_visible` measures;
  - the text received on the control socket.
- **`WRAP_AROUND`** is a constructor parameter of `MenuOverlay3.App`. The program fixes it to `False`; the model covers both settings.
- **Key repeats.** Only a press (value 1) adds a key to the held set, and only a release (value 0) removes it (overlay_daemon.py:116-119).
  - A repeat (value 2) of a key that is not held does not add it.
  - `TriggerEngine.ReplayTracksHeldKeys` states this rule over any sequence of events.
- **Malformed configuration.** Only a `config.json` that cannot be read or decoded falls back to an empty dictionary (overlay_daemon.py:23-28).
  - A document that decodes but holds a value of the wrong type makes `main` raise at start-up. Examples are a `trigger` that is not an object, or a `cooldown_ms` that `int()` rejects. `TriggerConfig.ReadSettings` returns these cases as `Err`.
  - The hold and tap values are not checked at start-up. `matches_combo` iterates the hold value lazily and only for an enabled combo, and the joystick combo is tested only when the keyboard combo did not fire (overlay_daemon.py:61-65, 127-131).
  - A string hold value is iterated character by character and an object by its keys. A list or object among the hold keys, or as the tap key, raises `TypeError` when it is looked up in the held set; that ends `main`. `TriggerEngine.MatchesCombo` has the three outcomes matched, unmatched and raised, and the daemon state records whether the loop still runs.
- **Wi-Fi when nothing is connected.** The Wi-Fi text reads "Wi-Fi: Desconectado" only when the pipeline succeeds with no SSID after the first colon.
  - When no line starts with `yes`, `grep` exits with status 1 and `check_output` raises.
  - That case reads "Wi-Fi: Sin datos" (menu_overlay3.py:49-54). `StatusText.WifiText` takes the failure as `None`.
- **Which menu the daemon starts.** `spawn_overlay` starts `menu_overlay.py`, the earlier menu (overlay_daemon.py:18, 44-48). The dashboard menu is started on its own and receives `--toggle` messages.

## Model

| member | source | states |
|---|---|---|
| Text.Strip | M-OS_Test/menu_overlay3.py:50 | `strip()` is the slice of the input between a whitespace-only prefix and a whitespace-only suffix; it is empty exactly when the input is all whitespace, and otherwise begins and ends with a non-space character |
| Text.StripPadded | M-OS_Test/menu_overlay3.py:68-69 | a word without whitespace at either end, padded with any whitespace on both sides, strips back to the word |
| Text.StripKeepsContent | M-OS_Test/menu_overlay3.py:68 | stripping removes only whitespace: every other character survives, in order |
| Text.Split | M-OS_Test/menu_overlay3.py:25 | `split()` yields only non-empty tokens without whitespace |
| Text.SplitKeepsContent | M-OS_Test/menu_overlay3.py:25 | the tokens of `split()`, put back together, are the input without its whitespace |
| Text.Contains | M-OS_Test/menu_overlay3.py:523 | `pat in s` holds exactly when `pat` occurs in `s` at some position |
| Text.IndexOf | M-OS_Test/menu_overlay3.py:51 | finds a character exactly when it occurs, at its first occurrence |
| Text.NatToStringRoundTrip | M-OS_Test/menu_overlay3.py:39 | reading back the digits of `str(n)` gives `n` |
| Text.IntToString | M-OS_Test/menu_overlay3.py:39 | `str(i)` of a non-negative `i` is digits that read back as `i`; of a negative `i` it is `-` followed by digits that read back as `-i` |
| TriggerConfig.LoadConfig | M-OS_Test/overlay_daemon.py:23-28 | an unreadable or undecodable file yields the empty dictionary; a decoded one is returned as is |
| TriggerConfig.IntOf | M-OS_Test/overlay_daemon.py:74 | `int()` keeps an integer, reads `True` and `False` as 1 and 0, reads a string by its stripped text, and rejects `null`, lists and objects |
| TriggerConfig.IntOfText | M-OS_Test/overlay_daemon.py:74 | stripped text is accepted exactly when it is digits, or `+` or `-` followed by digits; it then reads as that decimal value, negated after `-` |
| TriggerConfig.IntOfString | M-OS_Test/overlay_daemon.py:74 | `int(s)` of a string succeeds exactly when `s.strip()` is digits or a sign and digits, and gives the signed decimal value |
| TriggerConfig.IntOfDecimalText | M-OS_Test/overlay_daemon.py:74 | `int()` reads back the decimal text of every integer, negative ones included |
| TriggerConfig.KeyOf | M-OS_Test/overlay_daemon.py:61-65 | a string is a key name; a list or an object is unhashable, so looking it up in the held set raises; any other scalar is hashable and never held |
| TriggerConfig.HoldOf | M-OS_Test/overlay_daemon.py:62 | iterating a hold value: a list yields its entries in order, a string its characters, an object its keys; `null`, booleans and numbers are not iterable |
| TriggerConfig.ComboOf | M-OS_Test/overlay_daemon.py:77-85 | a combo section is accepted exactly when it is an object, and an error names the section otherwise; `enabled` is the truthiness of the given value, true when absent; an empty section gives an enabled combo with nothing to hold and the default tap key; the hold and tap values are kept as given, unchecked |
| TriggerConfig.ReadSettings | M-OS_Test/overlay_daemon.py:71-85 | start-up reads the options exactly when the document, its `trigger` section and both combo sections are objects and `int()` accepts the cooldown; hold and tap values never make it fail |
| TriggerConfig.UnreadableConfigGivesDefaults | M-OS_Test/overlay_daemon.py:72-85 | with an unreadable file the daemon runs with cooldown 800 ms, tap keys KEY_M and BTN_START, both combos enabled and nothing to hold |
| TriggerConfig.OptionsDefaultIndependently | M-OS_Test/overlay_daemon.py:72-85 | each option the "trigger" section leaves out takes its own default; a given cooldown is used as `int()` reads it, and a given keyboard or joystick section as `ComboOf` reads it |
| TriggerConfig.NoTriggerSectionGivesDefaults | M-OS_Test/overlay_daemon.py:72 | a document without a "trigger" section gives the same defaults as an unreadable file |
| TriggerEngine.TapTest | M-OS_Test/overlay_daemon.py:65 | `tap_key in pressed` is true exactly when the tap is a held key name, and raises exactly when the tap is unhashable |
| TriggerEngine.ScanEntries | M-OS_Test/overlay_daemon.py:62-65 | the scan of a hold list matches exactly when every entry and the tap are held, and raises exactly when an unhashable entry comes after only held ones, or every entry is held and the tap is unhashable |
| TriggerEngine.MatchesCombo | M-OS_Test/overlay_daemon.py:61-65 | three outcomes: matched exactly when every hold key and the tap key are held; raised exactly when the hold value is not iterable, an unhashable entry is reached before any unheld one, or everything is held and the tap is unhashable; unmatched otherwise; with no hold keys only the tap key matters |
| TriggerEngine.TestOf | M-OS_Test/overlay_daemon.py:127-130 | a disabled combo is never tested and does not match; an enabled one gives the result of `matches_combo`; the test matches exactly when the combo is enabled, every hold entry is held and the tap is held |
| TriggerEngine.UnheldEntryEndsTheScan | M-OS_Test/overlay_daemon.py:62-64 | an unheld hashable hold key ends the scan with no match, whatever follows it |
| TriggerEngine.StringOrDictHoldNeverRaises | M-OS_Test/overlay_daemon.py:61-65 | a string or object hold value never raises by itself: it matches exactly when each of its characters, or each of its keys, is held together with the tap |
| TriggerEngine.DictHoldActsAsItsKeys | M-OS_Test/overlay_daemon.py:61-65 | an object hold value tests exactly like the list of its keys, in any order |
| TriggerEngine.SafeComboNeverRaises | M-OS_Test/overlay_daemon.py:61-65 | a disabled combo, or one whose hold value is iterable and holds nothing unhashable, with a hashable tap, never raises |
| TriggerEngine.ApplyKey | M-OS_Test/overlay_daemon.py:116-119 | value 1 makes the key held, value 0 makes it not held, any other value changes nothing, and no other key changes |
| TriggerEngine.Decide | M-OS_Test/overlay_daemon.py:125-131 | a matching keyboard combo always fires as the keyboard; the joystick fires only when the keyboard combo neither matched nor raised |
| TriggerEngine.SpawnOverlay | M-OS_Test/overlay_daemon.py:31-48 | a new menu process is launched exactly when the scan found none |
| TriggerEngine.FiringOf | M-OS_Test/overlay_daemon.py:109-131 | anything but quiet needs a running loop, a key event and a clock at least the cooldown past `last_fire` |
| TriggerEngine.Next | M-OS_Test/overlay_daemon.py:109-135 | one event never restarts a stopped loop, makes at most one spawn call, launches only within a spawn call, and moves `last_fire` only to now together with a spawn call |
| TriggerEngine.NonKeyEventChangesNothing | M-OS_Test/overlay_daemon.py:110-111 | a non-key event fires nothing and leaves the held set, `last_fire` and the spawn counts unchanged |
| TriggerEngine.KeyEventUpdatesPressed | M-OS_Test/overlay_daemon.py:115-119 | value 1 adds the key, value 0 removes it (present or not), any other value leaves the set |
| TriggerEngine.CooldownGate | M-OS_Test/overlay_daemon.py:121-123 | inside the cooldown nothing fires and only the held set changes; a gap of exactly the cooldown reaches the combo test |
| TriggerEngine.FiresIffEnabledComboMatches | M-OS_Test/overlay_daemon.py:125-131 | outside the cooldown the keyboard fires exactly when its enabled combo matches; the joystick fires exactly when it matches and the keyboard did not match or raise; the loop crashes exactly when the keyboard test raises or the joystick test raises after an unmatched keyboard; otherwise nothing fires |
| TriggerEngine.FireRecordsAndSpawnsOnce | M-OS_Test/overlay_daemon.py:121-135 | the loop keeps running exactly when it was running and the combo tests did not raise; a fire sets `last_fire` to now and makes exactly one spawn call, which launches only when no menu was found; without a fire both stay |
| TriggerEngine.SpawnKeepsOneMenu | M-OS_Test/overlay_daemon.py:31-48 | with a truthful scan, a spawn call with at most one menu running leaves exactly one running |
| TriggerEngine.FirstComboFires | M-OS_Test/overlay_daemon.py:101-102 | in any running state with `last_fire` still 0, whatever is held, a key event that satisfies a combo fires once the clock reads at least the cooldown, and sets `last_fire` to now |
| TriggerEngine.FirstFireOfTrace | M-OS_Test/overlay_daemon.py:101-135 | after any events from start-up that fired nothing, a key event that satisfies a combo with the clock at least the cooldown is the first fire |
| TriggerEngine.ReplayTracksHeldKeys | M-OS_Test/overlay_daemon.py:116-119 | while the loop runs, after any sequence of events a key is held exactly when its most recent press-or-release was a press (or there was none and it was held before) |
| TriggerEngine.HeldAfterStep | M-OS_Test/overlay_daemon.py:116-119 | the last event decides whether a key is held when it presses or releases that key; otherwise the earlier events decide |
| TriggerEngine.StoppedDaemonHandlesNothing | M-OS_Test/overlay_daemon.py:104-140 | once the loop has ended, no later event changes anything or fires |
| TriggerEngine.SafeSettingsKeepRunning | M-OS_Test/overlay_daemon.py:104-135 | with two combos that cannot raise, the loop keeps running over any sequence of events |
| TriggerEngine.FiresSpacedByCooldown | M-OS_Test/overlay_daemon.py:121-135 | over any sequence of events, fires are at least the cooldown apart, `last_fire` ends at the last fire, and each fire made one spawn call |
| TriggerEngine.CtrlMScenario | M-OS_Test/overlay_daemon.py:104-135 | with Ctrl+M and a 500 ms cooldown: the combo fires at t0, not again at t0+300, and again at t0+600 |
| TriggerEngine.DefaultCooldownExample | M-OS_Test/overlay_daemon.py:121-123 | with the default 800 ms cooldown a combo 500 ms after a fire is suppressed and one 900 ms after fires |
| TriggerEngine.Startup | M-OS_Test/overlay_daemon.py:70-90 | the daemon starts exactly when the options can be read and some input device exists, with exactly those options; an unreadable file with devices starts with the defaults |
| TriggerEngine.Daemon.constructor | M-OS_Test/overlay_daemon.py:101-102 | the loop starts with nothing held and `last_fire = 0` |
| TriggerEngine.Daemon.Spawn | M-OS_Test/overlay_daemon.py:31-48 | one call; a new process only when the scan found none; the held set and `last_fire` are untouched |
| TriggerEngine.Daemon.HandleEvent | M-OS_Test/overlay_daemon.py:109-135 | the in-place loop body fires as `FiringOf` says and leaves the state `Next` gives, including the stop when a combo test raises |
| TriggerEngine.Daemon.Run | M-OS_Test/overlay_daemon.py:104-135 | handling a sequence of events in order leaves the state `Replay` gives |
| Arithmetic.Wrapped | M-OS_Test/menu_overlay.py:226 | `(i + d) % n` lies in `[0, n)`; it is `i + d` in range, `i + d + n` just below it and `i + d - n` just above it |
| Arithmetic.WrappedAtTheEnds | M-OS_Test/menu_overlay.py:225-226 | moving up from the first card gives the last, moving down from the last gives the first |
| MenuList.CardsOfDropsHeaders | M-OS_Test/menu_overlay.py:211-219 | building the menu drops exactly the headers: one card per other item, and a card exists exactly for each item |
| MenuList.CardsOfSections | M-OS_Test/menu_overlay.py:211-219 | a menu of three sections, each a header followed by its items, yields the sections' cards in order |
| MenuList.CardsOf | M-OS_Test/menu_overlay.py:211-219 | the cards number the entries minus the headers |
| Palette.LookRule | M-OS_Test/menu_overlay.py:156-162 | the background is the danger colour for an active danger card, the hover colour for another active card, the card colour otherwise; the title is red only on an inactive danger card; the description is white only when active |
| Palette.LookOf | M-OS_Test/menu_overlay.py:156-162 | title and description never take the background colour, and the background is the plain card colour exactly when the card is not highlighted |
| MenuOverlay.Card.constructor | M-OS_Test/menu_overlay.py:137-143 | a new card is not highlighted and shows the inactive colours |
| MenuOverlay.Card.SetHighlight | M-OS_Test/menu_overlay.py:152-162 | the flag becomes `active` and the colours follow the rule; nothing changes when the flag already had that value |
| MenuOverlay.BuildCards | M-OS_Test/menu_overlay.py:211-219 | one new, distinct card per non-header item, in menu order, each showing the colours its flag calls for |
| MenuOverlay.OverlayApp.constructor | M-OS_Test/menu_overlay.py:188-201 | one card per non-header item, in order; cursor on the first card, which alone is highlighted |
| MenuOverlay.OverlayApp.UpdateSelectionVisuals | M-OS_Test/menu_overlay.py:229-230 | afterwards exactly the card under the cursor is highlighted; cards already in the right state keep their colours |
| MenuOverlay.OverlayApp.MoveSelection | M-OS_Test/menu_overlay.py:225-227 | the cursor becomes `(i + d) % n` and exactly that card is highlighted; with no cards the modulo raises and nothing changes |
| MenuOverlay.OverlayApp.RunAction | M-OS_Test/menu_overlay.py:234-237 | a command is launched once and then the window is destroyed; an empty action does nothing |
| MenuOverlay.OverlayApp.TriggerSelected | M-OS_Test/menu_overlay.py:232 | the card under the cursor runs its action; with no cards the indexing raises |
| MenuOverlay.OverlayApp.Escape | M-OS_Test/menu_overlay.py:196 | the window is destroyed and nothing else changes |
| MenuOverlay.OverlayApp.Hover | M-OS_Test/menu_overlay.py:148-149 | entering or leaving a card sets that card's highlight |
| MenuOverlay.ConfiguredMenu | M-OS_Test/menu_overlay.py:67-90 | the configured menu has ten cards, the sections' cards in order, and exactly the last two are danger cards |
| StatusText.Unseparated | M-OS_Test/menu_overlay3.py:25 | every `/` and `,` becomes a space and every other character stays |
| StatusText.FirstPercent | M-OS_Test/menu_overlay3.py:25-28 | finds the first token of digits followed by `%`, and finds none exactly when no token is one |
| StatusText.VolumeText | M-OS_Test/menu_overlay3.py:22-30 | "Volumen: N/A" when the command failed; "Volumen: --" exactly when no token qualifies; otherwise "Volumen: " and the first qualifying token |
| StatusText.VolumeTextShape | M-OS_Test/menu_overlay3.py:25-28 | the volume text is "N/A", "--" or digits followed by `%` |
| StatusText.BarePercentIsSkipped | M-OS_Test/menu_overlay3.py:26 | a bare `%` does not qualify |
| StatusText.FirstPercentIsTaken | M-OS_Test/menu_overlay3.py:25-28 | whatever precedes it, the first token of digits followed by `%` is the one shown |
| StatusText.SlashSeparates | M-OS_Test/menu_overlay3.py:25 | for any digits `d` and any rest, in "d%/rest" the slash ends the token and "d%" is shown |
| StatusText.SsidOf | M-OS_Test/menu_overlay3.py:51 | without a colon the SSID is empty |
| StatusText.SsidAtFirstColon | M-OS_Test/menu_overlay3.py:51 | the SSID is the text after the first colon, stripped |
| StatusText.SsidAfterFirstColon | M-OS_Test/menu_overlay3.py:51 | colons inside the network name are kept, since only the first colon splits |
| StatusText.WifiText | M-OS_Test/menu_overlay3.py:47-54 | "Sin datos" when the pipeline failed; "Desconectado" for an empty SSID; "Conectado a: " and the SSID otherwise |
| StatusText.WifiWithoutColon | M-OS_Test/menu_overlay3.py:51-52 | output without a colon reads "Desconectado" |
| StatusText.WifiAfterFirstColon | M-OS_Test/menu_overlay3.py:51-52 | "Desconectado" exactly when only whitespace follows the first colon; otherwise the stripped text after it is named |
| StatusText.TruncDiv | M-OS_Test/menu_overlay3.py:38 | `int(a / b)` is the ordinary quotient for non-negative `a` and positive `b` |
| StatusText.BrightnessText | M-OS_Test/menu_overlay3.py:32-45 | "--" for a zero maximum, the truncated percentage otherwise, the `light -G` value when brightnessctl fails, "Nivel de Brillo" when both fail |
| StatusText.BrightnessPercentBounds | M-OS_Test/menu_overlay3.py:36-39 | a level between 0 and the maximum shows 0 to 100 percent, and the maximum shows 100 |
| StatusText.NightLightIgnoresPadding | M-OS_Test/menu_overlay3.py:63-71 | `true` with any surrounding whitespace reads as on, `false` as off, and a failed command as off |
| Actions.Perform | M-OS_Test/menu_overlay3.py:123-155 | only the application and back actions return "hide"; only reboot and shutdown return nothing; exactly the actions that return "hide" or nothing launch a program in the background, except back, and the program launched is the card's own command line; volume and brightness return their command lists |
| Actions.NightLightRequestsNegation | M-OS_Test/menu_overlay3.py:128-135 | the night-light action returns one `gsettings set` command whose value, read back, is the negation of the current state |
| Actions.Attempts | M-OS_Test/menu_overlay3.py:110-116 | the runner starts every command up to the first success, or all of them |
| Actions.AttemptsStopAtFirstSuccess | M-OS_Test/menu_overlay3.py:111-116 | when command `s` is the first to succeed, exactly the commands up to `s` are started |
| Actions.AttemptsWithoutSuccess | M-OS_Test/menu_overlay3.py:111-116 | when no command succeeds, every command is started |
| Actions.RunThreadedAction | M-OS_Test/menu_overlay3.py:109-119 | the commands started are the chain up to its first success; the result says whether some command succeeded; `on_finish`, if given, is called exactly once |
| MenuOverlay3.Clamped | M-OS_Test/menu_overlay3.py:461 | `max(0, min(n - 1, i + d))` lies in `[0, n)`, equals `i + d` in range and sticks at the ends |
| MenuOverlay3.NextIndex | M-OS_Test/menu_overlay3.py:457-461 | the cursor lands in `[0, n)`: clamped without wrap-around, `(i + d) % n` with it |
| MenuOverlay3.EndsOfTheList | M-OS_Test/menu_overlay3.py:457-464 | without wrap-around a move past either end leaves the cursor in place; with it the cursor goes round |
| MenuOverlay3.ClampTop | M-OS_Test/menu_overlay3.py:486-490 | `view_top` is held in `[0, max_scroll]` and unchanged inside it |
| MenuOverlay3.ScrollFraction | M-OS_Test/menu_overlay3.py:469-493 | no scroll when the content fits; otherwise a fraction in `[0, 1]` that, times the scroll range `inner_h - canvas_h`, gives the centring top clamped to that range |
| MenuOverlay3.ScrollFollowsCard | M-OS_Test/menu_overlay3.py:479-493 | in the same canvas and content a card lower down never gets a smaller fraction; a card whose centring top is above the content gets 0, one past the scroll range gets 1 |
| MenuOverlay3.Toggled | M-OS_Test/menu_overlay3.py:524-530 | a toggle never destroys a window or revives a destroyed one; a withdrawn window is shown full screen with the cursor on the first card and the list at the top; a shown one is withdrawn and keeps everything else |
| MenuOverlay3.ToggleTwice | M-OS_Test/menu_overlay3.py:524-530 | two toggles bring a withdrawn window back to withdrawn (cursor and scroll reset), a shown one back to shown; only a destroyed window is destroyed afterwards |
| MenuOverlay3.ClickCases | M-OS_Test/menu_overlay3.py:428-443 | a card never destroys the window; an application card launches its command and withdraws the window, "back" only withdraws it, and nothing else withdraws it; a command list leaves the window and runs the chain to its first success; the night-light card runs its single `gsettings set` command; reboot and shutdown only launch their command |
| MenuOverlay3.Click | M-OS_Test/menu_overlay3.py:428-443 | a click appends the card's own command to the launched programs exactly for the cards that launch one; the window is withdrawn exactly for the cards whose action returns "hide", and kept otherwise; the cards are refreshed once exactly for a tagged card whose action returns a command list |
| MenuOverlay3.Apply | M-OS_Test/menu_overlay3.py:428-443 | "hide" withdraws the window and any other result keeps it; the launched program, if any, is appended to the launched ones; a command list runs its prefix up to the first success; at most one refresh, and only for a tagged command list; commands run only for a command list |
| MenuOverlay3.Card.constructor | M-OS_Test/menu_overlay3.py:221-243 | a new card is not highlighted, shows the inactive colours and its switch takes the card background |
| MenuOverlay3.Card.SetHighlight | M-OS_Test/menu_overlay3.py:284-299 | the flag becomes `active`, the colours follow the rule and the switch follows the background; nothing changes when the flag already had that value |
| MenuOverlay3.BuildCards | M-OS_Test/menu_overlay3.py:415-424 | one new, distinct card per non-header entry, in menu order, each showing the colours its flag calls for |
| MenuOverlay3.App.constructor | M-OS_Test/menu_overlay3.py:309-353 | the window starts withdrawn; one card per non-header entry; cursor on the first card, which alone is highlighted |
| MenuOverlay3.App.UpdateVis | M-OS_Test/menu_overlay3.py:495-497 | afterwards exactly the card at `idx` is highlighted; cards already in the right state keep their colours |
| MenuOverlay3.App.EnsureVisible | M-OS_Test/menu_overlay3.py:469-493 | scrolls to the fraction `ScrollFraction` gives, or not at all with no cards or when the content fits |
| MenuOverlay3.App.MoveSel | M-OS_Test/menu_overlay3.py:450-467 | with no cards or an unmoved cursor nothing changes; otherwise the cursor moves as `NextIndex` says, exactly that card is highlighted, and the list scrolls to it |
| MenuOverlay3.App.InitialPosition | M-OS_Test/menu_overlay3.py:371-374 | cursor on the first card, highlighted, and the list at the top |
| MenuOverlay3.App.RevealWindow | M-OS_Test/menu_overlay3.py:376-379 | the window is shown full screen, then the cursor and the list are reset |
| MenuOverlay3.App.DoToggle | M-OS_Test/menu_overlay3.py:524-530 | withdrawn becomes shown with the cursor and list reset; shown becomes withdrawn with the cursor kept |
| MenuOverlay3.App.ReceiveMessage | M-OS_Test/menu_overlay3.py:522-531 | a message toggles the window exactly when it contains "toggle"; a toggle that shows the window highlights exactly the card under the cursor; otherwise the cards are untouched; nothing is launched or run |
| MenuOverlay3.App.OnCardClick | M-OS_Test/menu_overlay3.py:428-443 | the effects are as `Click` gives: "hide" withdraws; a list runs its chain and refreshes tagged cards once; nothing else for `None` |
| MenuOverlay3.App.Trigger | M-OS_Test/menu_overlay3.py:499-500 | the card under the cursor is clicked; with no cards the indexing raises |
| MenuOverlay3.App.Escape | M-OS_Test/menu_overlay3.py:345 | the window is destroyed and nothing else changes |
| MenuOverlay3.App.Hover | M-OS_Test/menu_overlay3.py:250-251 | entering or leaving a card sets that card's highlight |
| MenuOverlay3.ConfiguredMenu | M-OS_Test/menu_overlay3.py:161-189 | 17 cards; exactly the last two are danger cards and return nothing; the cards returning command lists are exactly the tagged ones; only the night-light card has a switch |

## Left out

- Device I/O is not modelled: evdev enumeration, the `selectors` wait and the swallowed `BlockingIOError`/`OSError`. The model gives the daemon's loop the events, already in order.
- The key-code-to-name lookup is not modelled. Events carry key names.
- The real `pgrep`, `Popen`, `subprocess.run` and `check_output` calls are not modelled. Their outcomes are parameters, and launched programs are recorded as command lines.
- MenuOverlay.OverlayApp.RunAction: every launch of the earlier menu is taken to succeed. `action_wifi` calls `Popen` outside `run_cmd`'s `try` (menu_overlay.py:59), so a failed launch there raises and the window is not destroyed; that case is not modelled.
- `sys.executable` and `os.path.join(BASE_DIR, ...)` are not modelled. They appear as the constant names `Interpreter` and `SettingsScript`.
- The UNIX socket server, its bind and chmod calls, and the `--toggle` client are not modelled. Only the received text and the `do_toggle` transition are.
- tkinter widgets, layout, fonts, icons, the clock, the alpha setting and the mouse wheel are not modelled. Neither are the periodic refresh of card texts (`update_data`, `refresh_all_cards`), the toggle switch drawing and `get_bt_text`. A refresh requested by a finished chain is counted, not performed.
- `UI_SCALE`, `sc`, `fs` and the icon size are not modelled, because they are pixel arithmetic on floats.
- The `after` delays are not modelled. `reveal_window` and `do_toggle` take effect at once, with the reveal before the reset. The 2-second reveal after start-up is the separate method `RevealWindow`.
- Callbacks after the window is destroyed are not modelled. Nothing runs once the main loop has ended, so clicking requires a live window, and a toggle on a destroyed window does nothing.
- TriggerEngine.Daemon.HandleEvent: time is integer milliseconds; the float seconds of `time.time()` and `cooldown_ms / 1000.0` are not modelled.
- TriggerEngine.CtrlMScenario: the first press is at `t0 >= 500`, because `last_fire` starts at 0 and the real clock reads seconds since 1970.
- TriggerConfig.ReadSettings: decoded JSON numbers are integers only; a float `cooldown_ms` is not modelled.
- TriggerEngine.MatchesCombo: an object hold value is a set of keys, so the order in which Python iterates them is not modelled; it cannot change the outcome, because the keys are strings and none raises.
- TriggerEngine.Daemon.HandleEvent: a `TypeError` from a combo test ends `main`; the model records it as the loop no longer running, and the traceback and exit status are not modelled.
- TriggerConfig.IntOf: `int()` of a string accepts only ASCII digits; Python also accepts other Unicode decimal digits and underscores between digits.
- StatusText.VolumeText: `isdigit` is restricted to the ASCII digits; Python also accepts other Unicode digits such as superscripts.
- StatusText.BrightnessText: the percentage is the exact quotient truncated toward zero. The float `int((curr / max_b) * 100)` can be one lower when the division rounds down, and `int()` of the `brightnessctl` output is taken as already done.
- MenuOverlay3.App.ReceiveMessage: the message is the decoded text; the 1024-byte `recv` limit and dropped undecodable bytes are not modelled.
- MenuOverlay3.App.OnCardClick: the command chain runs to completion inside the click, and each command's outcome is a parameter. The worker thread and its interleaving with later events are not modelled.
- MenuOverlay3.ScrollFraction: how Tk's `yview_moveto` turns the fraction into a view position is not modelled, so nothing is claimed about where the card lands on screen.
- MenuOverlay3.App.MoveSel: the geometry `ensure_visible` measures is a parameter; `_sync_scrollregion` and the widget sizes are not modelled.

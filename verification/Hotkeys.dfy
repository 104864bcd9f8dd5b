/** The hotkey grammar: parser, printers, and the settings that store a hotkey. */
module Hotkeys {
  import opened Options
  import opened Strings

  const MIN_REFRESH_INTERVAL_MS: nat := 250
  const MAX_REFRESH_INTERVAL_MS: nat := 10_000
  const DEFAULT_HOTKEY := "Ctrl+Alt+0"

  datatype Hotkey = Hotkey(ctrl: bool, alt: bool, shift: bool, meta: bool, key: string)

  datatype HotkeyError = Empty | MissingModifier | UnsupportedKey(part: string) | TooManyParts

  datatype Modifier = Ctrl | Alt | Shift | Meta

  const Blank := Hotkey(false, false, false, false, "")

  function ModifierNamed(lower: string): Option<Modifier> {
    if lower == "ctrl" || lower == "control" then Some(Ctrl)
    else if lower == "alt" || lower == "option" then Some(Alt)
    else if lower == "shift" then Some(Shift)
    else if lower == "win" || lower == "windows" || lower == "super" || lower == "meta" || lower == "cmd"
            || lower == "command" then Some(Meta)
    else None
  }

  function KeyNamed(upper: string): Option<string> {
    if upper == "SPACE" then Some("Space")
    else if upper == "BACKSPACE" then Some("Backspace")
    else if upper == "TAB" then Some("Tab")
    else if upper == "ENTER" || upper == "RETURN" then Some("Enter")
    else if upper == "ESCAPE" || upper == "ESC" then Some("Escape")
    else if upper == "DELETE" || upper == "DEL" then Some("Delete")
    else if upper == "INSERT" || upper == "INS" then Some("Insert")
    else if upper == "HOME" then Some("Home")
    else if upper == "END" then Some("End")
    else if upper == "PAGEUP" || upper == "PGUP" then Some("PageUp")
    else if upper == "PAGEDOWN" || upper == "PGDN" then Some("PageDown")
    else if upper == "UP" then Some("Up")
    else if upper == "DOWN" then Some("Down")
    else if upper == "LEFT" then Some("Left")
    else if upper == "RIGHT" then Some("Right")
    else if upper == "PRINTSCREEN" || upper == "PRTSC" then Some("PrintScreen")
    else None
  }

  predicate IsAlphanumeric(c: char) {
    'a' <= c <= 'z' || 'A' <= c <= 'Z' || IsDigit(c)
  }

  /** The number after an F, when the part is a function key. */
  function FunctionKey(upper: string): (r: Option<nat>)
    ensures r.Some? ==> 1 <= r.value <= 24
  {
    if |upper| > 1 && upper[0] == 'F' && AllDigits(upper[1..]) && 1 <= Number(upper[1..]) <= 24
    then Some(Number(upper[1..])) else None
  }

  function NormalizeKey(part: string): Result<string, HotkeyError> {
    var upper := Upper(part);
    if |upper| == 1 && IsAlphanumeric(upper[0]) then Ok(upper)
    else match FunctionKey(upper)
      case Some(n) => Ok("F" + Decimal(n))
      case None =>
        match KeyNamed(upper)
        case Some(name) => Ok(name)
        case None => Err(UnsupportedKey(part))
  }

  function WithModifier(h: Hotkey, m: Modifier): Hotkey {
    match m
    case Ctrl => h.(ctrl := true)
    case Alt => h.(alt := true)
    case Shift => h.(shift := true)
    case Meta => h.(meta := true)
  }

  function ParsePart(h: Hotkey, raw: string): Result<Hotkey, HotkeyError> {
    var part := Trim(raw);
    if part == "" then Ok(h)
    else match ModifierNamed(Lower(part))
      case Some(m) => Ok(WithModifier(h, m))
      case None =>
        if h.key != "" then Err(TooManyParts)
        else match NormalizeKey(part)
          case Ok(k) => Ok(h.(key := k))
          case Err(e) => Err(e)
  }

  function ParseParts(h: Hotkey, parts: seq<string>): Result<Hotkey, HotkeyError>
    decreases |parts|
  {
    if parts == [] then Ok(h)
    else match ParsePart(h, parts[0])
      case Ok(h') => ParseParts(h', parts[1..])
      case Err(e) => Err(e)
  }

  predicate HasModifier(h: Hotkey) {
    h.ctrl || h.alt || h.shift || h.meta
  }

  function Parse(input: string): Result<Hotkey, HotkeyError> {
    if Trim(input) == "" then Err(Empty)
    else match ParseParts(Blank, Split(Trim(input)))
      case Err(e) => Err(e)
      case Ok(h) =>
        if h.key == "" then Err(UnsupportedKey("no key specified"))
        else if !HasModifier(h) then Err(MissingModifier)
        else Ok(h)
  }

  /** The loop over the parts. */
  method ParseHotkey(input: string) returns (r: Result<Hotkey, HotkeyError>)
    ensures r == Parse(input)
  {
    var trimmed := Trim(input);
    if trimmed == "" {
      return Err(Empty);
    }
    var hotkey := Blank;
    var parts := Split(trimmed);
    for i := 0 to |parts|
      invariant ParseParts(Blank, parts) == ParseParts(hotkey, parts[i..])
    {
      var part := Trim(parts[i]);
      assert parts[i..][1..] == parts[i + 1..];
      if part == "" {
        continue;
      }
      match ModifierNamed(Lower(part)) {
        case Some(m) => hotkey := WithModifier(hotkey, m);
        case None =>
          if hotkey.key != "" {
            return Err(TooManyParts);
          }
          match NormalizeKey(part) {
            case Ok(k) => hotkey := hotkey.(key := k);
            case Err(e) => return Err(e);
          }
      }
    }
    if hotkey.key == "" {
      return Err(UnsupportedKey("no key specified"));
    }
    if !HasModifier(hotkey) {
      return Err(MissingModifier);
    }
    return Ok(hotkey);
  }

  function When(b: bool, part: string): seq<string> {
    if b then [part] else []
  }

  function DisplayParts(h: Hotkey): seq<string> {
    When(h.ctrl, "Ctrl") + When(h.alt, "Alt") + When(h.shift, "Shift") + When(h.meta, "Win") + [h.key]
  }

  /** Canonical human form. */
  function ToDisplay(h: Hotkey): string {
    Join(DisplayParts(h))
  }

  function PluginKey(key: string): string {
    if key != "" && key[0] == 'F' && AllDigits(key[1..]) then "f" + key[1..]
    else if key == "Space" then "space"
    else if key == "Backspace" then "backspace"
    else if key == "Tab" then "tab"
    else if key == "Enter" then "enter"
    else if key == "Escape" then "escape"
    else if key == "Delete" then "delete"
    else if key == "Insert" then "insert"
    else if key == "Home" then "home"
    else if key == "End" then "end"
    else if key == "PageUp" then "pageup"
    else if key == "PageDown" then "pagedown"
    else if key == "Up" then "up"
    else if key == "Down" then "down"
    else if key == "Left" then "left"
    else if key == "Right" then "right"
    else Lower(key)
  }

  function ShortcutParts(h: Hotkey): seq<string> {
    When(h.ctrl, "ctrl") + When(h.alt, "alt") + When(h.shift, "shift") + When(h.meta, "super") + [PluginKey(h.key)]
  }

  /** Lowercase form for the global-shortcut plugin. */
  function ToShortcut(h: Hotkey): string {
    Join(ShortcutParts(h))
  }

  /** Both printers push onto a local list. */
  method DisplayHotkey(h: Hotkey) returns (s: string)
    ensures s == ToDisplay(h)
  {
    var parts := [];
    if h.ctrl {
      parts := parts + ["Ctrl"];
    }
    if h.alt {
      parts := parts + ["Alt"];
    }
    if h.shift {
      parts := parts + ["Shift"];
    }
    if h.meta {
      parts := parts + ["Win"];
    }
    parts := parts + [h.key];
    assert parts == DisplayParts(h);
    s := Join(parts);
  }

  function Clamp(ms: nat): nat {
    if ms < MIN_REFRESH_INTERVAL_MS then MIN_REFRESH_INTERVAL_MS
    else if ms > MAX_REFRESH_INTERVAL_MS then MAX_REFRESH_INTERVAL_MS
    else ms
  }

  function SanitizedHotkey(hotkey: string): string {
    match Parse(hotkey)
    case Ok(h) => ToDisplay(h)
    case Err(_) => DEFAULT_HOTKEY
  }

  class Settings {
    var hotkey: string
    var refreshIntervalMs: nat

    constructor (hotkey: string, refreshIntervalMs: nat)
      ensures this.hotkey == hotkey && this.refreshIntervalMs == refreshIntervalMs
    {
      this.hotkey, this.refreshIntervalMs := hotkey, refreshIntervalMs;
    }

    method Sanitize()
      modifies this
      ensures hotkey == SanitizedHotkey(old(hotkey))
      ensures refreshIntervalMs == Clamp(old(refreshIntervalMs))
    {
      refreshIntervalMs := Clamp(refreshIntervalMs);
      var parsed := ParseHotkey(hotkey);
      match parsed
      case Ok(h) => hotkey := DisplayHotkey(h);
      case Err(_) => hotkey := DEFAULT_HOTKEY;
    }
  }

  // ----- the frontend recorder

  datatype KeyEvent = KeyEvent(key: string, ctrl: bool, alt: bool, shift: bool, meta: bool)

  function RecorderNamed(key: string): Option<string> {
    if key == " " then Some("Space")
    else if key in {"Escape", "Backspace", "Tab", "Enter", "Delete", "Insert", "Home", "End", "PageUp", "PageDown"}
    then Some(key)
    else if key == "ArrowUp" then Some("Up")
    else if key == "ArrowDown" then Some("Down")
    else if key == "ArrowLeft" then Some("Left")
    else if key == "ArrowRight" then Some("Right")
    else None
  }

  predicate IsFunctionKeyName(key: string) {
    exists n | 1 <= n <= 24 :: key == "F" + Decimal(n)
  }

  function RecorderKey(key: string): Option<string> {
    if |key| == 1 && IsAlphanumeric(key[0]) then Some(Upper(key))
    else if IsFunctionKeyName(key) then Some(Upper(key))
    else RecorderNamed(key)
  }

  /** The hotkey string a keydown event records, if any. */
  method HotkeyFromEvent(e: KeyEvent) returns (r: Option<string>)
    ensures r == Recorded(e)
  {
    var key := RecorderKey(e.key);
    if key.None? {
      return None;
    }
    var parts := [];
    if e.ctrl {
      parts := parts + ["Ctrl"];
    }
    if e.alt {
      parts := parts + ["Alt"];
    }
    if e.shift {
      parts := parts + ["Shift"];
    }
    if e.meta {
      parts := parts + ["Win"];
    }
    parts := parts + [key.value];
    assert parts == DisplayParts(Hotkey(e.ctrl, e.alt, e.shift, e.meta, key.value));
    if |parts| < 2 {
      return None;
    }
    return Some(Join(parts));
  }

  function Recorded(e: KeyEvent): Option<string> {
    var key := RecorderKey(e.key);
    if key.None? || !(e.ctrl || e.alt || e.shift || e.meta) then None
    else Some(ToDisplay(Hotkey(e.ctrl, e.alt, e.shift, e.meta, key.value)))
  }
}

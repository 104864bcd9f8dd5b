/** Parser, printers and recorder agree on one canonical form. */
module HotkeyTheorems {
  import opened Options
  import opened Strings
  import opened Hotkeys

  // ----- canonical keys

  const EDITING_NAMES := {"Space", "Backspace", "Tab", "Enter", "Escape", "Delete", "Insert", "PrintScreen"}
  const MOVING_NAMES := {"Home", "End", "PageUp", "PageDown", "Up", "Down", "Left", "Right"}
  const NAMES := EDITING_NAMES + MOVING_NAMES

  /** What a parsed hotkey's key can be. */
  predicate Canonical(k: string) {
    || (|k| == 1 && ('A' <= k[0] <= 'Z' || IsDigit(k[0])))
    || IsFunctionKeyName(k)
    || k in NAMES
  }

  lemma KeyNamedIsCanonical(upper: string)
    ensures KeyNamed(upper).Some? ==> KeyNamed(upper).value in NAMES
  {
  }

  lemma NormalizedIsCanonical(part: string)
    ensures NormalizeKey(part).Ok? ==> Canonical(NormalizeKey(part).value)
  {
    KeyNamedIsCanonical(Upper(part));
  }

  lemma FunctionKeyUpper(n: nat)
    requires 1 <= n <= 24
    ensures var k := "F" + Decimal(n);
            Upper(k) == k && FunctionKey(k) == Some(n) && |k| > 1
  {
    DecimalReads(n);
    var k := "F" + Decimal(n);
    assert k[1..] == Decimal(n);
    forall i | 0 <= i < |k| ensures UpperChar(k[i]) == k[i] {
      assert i > 0 ==> k[i] == Decimal(n)[i - 1];
    }
  }

  lemma EditingNameUpper(k: string)
    requires k in EDITING_NAMES
    ensures KeyNamed(Upper(k)) == Some(k) && Upper(k)[0] != 'F' && |k| > 1
  {
    if k == "Space" { assert Upper(k) == "SPACE"; }
    else if k == "Backspace" { assert Upper(k) == "BACKSPACE"; }
    else if k == "Tab" { assert Upper(k) == "TAB"; }
    else if k == "Enter" { assert Upper(k) == "ENTER"; }
    else if k == "Escape" { assert Upper(k) == "ESCAPE"; }
    else if k == "Delete" { assert Upper(k) == "DELETE"; }
    else if k == "Insert" { assert Upper(k) == "INSERT"; }
    else { assert Upper(k) == "PRINTSCREEN"; }
  }

  lemma MovingNameUpper(k: string)
    requires k in MOVING_NAMES
    ensures KeyNamed(Upper(k)) == Some(k) && Upper(k)[0] != 'F' && |k| > 1
  {
    if k == "Home" { assert Upper(k) == "HOME"; }
    else if k == "End" { assert Upper(k) == "END"; }
    else if k == "PageUp" { assert Upper(k) == "PAGEUP"; }
    else if k == "PageDown" { assert Upper(k) == "PAGEDOWN"; }
    else if k == "Up" { assert Upper(k) == "UP"; }
    else if k == "Down" { assert Upper(k) == "DOWN"; }
    else if k == "Left" { assert Upper(k) == "LEFT"; }
    else { assert Upper(k) == "RIGHT"; }
  }

  /** A canonical key is recovered from any spelling that differs from it in letter case only. */
  lemma CanonicalNormalizes(k: string, part: string)
    requires Canonical(k) && Upper(part) == Upper(k)
    ensures NormalizeKey(part) == Ok(k)
  {
    if k in EDITING_NAMES {
      EditingNameUpper(k);
    } else if k in MOVING_NAMES {
      MovingNameUpper(k);
    } else if IsFunctionKeyName(k) {
      var n :| 1 <= n <= 24 && k == "F" + Decimal(n);
      FunctionKeyUpper(n);
    } else {
      assert Upper(k) == k;
    }
  }

  // ----- canonical keys are not modifiers, and survive trimming and splitting

  /** A part the splitter and the trimmer leave alone. */
  predicate Plain(part: string) {
    Tidy(part) && NoPlus(part)
  }

  predicate Alphanumeric(s: string) {
    s != "" && forall i | 0 <= i < |s| :: IsAlphanumeric(s[i])
  }

  lemma AlphanumericIsPlain(s: string)
    requires Alphanumeric(s)
    ensures Plain(s) && Plain(Lower(s))
  {
    var l := Lower(s);
    assert IsAlphanumeric(s[0]) && IsAlphanumeric(s[|s| - 1]);
    forall i | 0 <= i < |l| ensures IsAlphanumeric(l[i]) {
    }
  }

  lemma EditingNameIsAlphanumeric(k: string)
    requires k in EDITING_NAMES
    ensures Alphanumeric(k)
  {
  }

  lemma MovingNameIsAlphanumeric(k: string)
    requires k in MOVING_NAMES
    ensures Alphanumeric(k)
  {
  }

  lemma WhitespaceNamePlugin(k: string)
    requires k in {"Space", "Backspace", "Tab", "Enter"}
    ensures PluginKey(k) == Lower(k)
  {
    if k == "Space" { assert Lower(k) == "space"; }
    else if k == "Backspace" { assert Lower(k) == "backspace"; }
    else if k == "Tab" { assert Lower(k) == "tab"; }
    else { assert Lower(k) == "enter"; }
  }

  lemma EditingNamePlugin(k: string)
    requires k in EDITING_NAMES
    ensures PluginKey(k) == Lower(k)
  {
    if k in {"Space", "Backspace", "Tab", "Enter"} { WhitespaceNamePlugin(k); }
    else if k == "Escape" { assert Lower(k) == "escape"; }
    else if k == "Delete" { assert Lower(k) == "delete"; }
    else if k == "Insert" { assert Lower(k) == "insert"; }
    else { assert Lower(k) == "printscreen"; }
  }

  lemma ArrowNamePlugin(k: string)
    requires k in {"Up", "Down", "Left", "Right"}
    ensures PluginKey(k) == Lower(k)
  {
    if k == "Up" { assert Lower(k) == "up"; }
    else if k == "Down" { assert Lower(k) == "down"; }
    else if k == "Left" { assert Lower(k) == "left"; }
    else { assert Lower(k) == "right"; }
  }

  lemma MovingNamePlugin(k: string)
    requires k in MOVING_NAMES
    ensures PluginKey(k) == Lower(k)
  {
    if k in {"Up", "Down", "Left", "Right"} { ArrowNamePlugin(k); }
    else if k == "Home" { assert Lower(k) == "home"; }
    else if k == "End" { assert Lower(k) == "end"; }
    else if k == "PageUp" { assert Lower(k) == "pageup"; }
    else { assert Lower(k) == "pagedown"; }
  }

  lemma EditingNameLower(k: string)
    requires k in EDITING_NAMES
    ensures ModifierNamed(Lower(k)).None?
  {
    if k == "Space" { assert Lower(k) == "space"; }
    else if k == "Backspace" { assert Lower(k) == "backspace"; }
    else if k == "Tab" { assert Lower(k) == "tab"; }
    else if k == "Enter" { assert Lower(k) == "enter"; }
    else if k == "Escape" { assert Lower(k) == "escape"; }
    else if k == "Delete" { assert Lower(k) == "delete"; }
    else if k == "Insert" { assert Lower(k) == "insert"; }
    else { assert Lower(k) == "printscreen"; }
  }

  lemma MovingNameLower(k: string)
    requires k in MOVING_NAMES
    ensures ModifierNamed(Lower(k)).None?
  {
    if k == "Home" { assert Lower(k) == "home"; }
    else if k == "End" { assert Lower(k) == "end"; }
    else if k == "PageUp" { assert Lower(k) == "pageup"; }
    else if k == "PageDown" { assert Lower(k) == "pagedown"; }
    else if k == "Up" { assert Lower(k) == "up"; }
    else if k == "Down" { assert Lower(k) == "down"; }
    else if k == "Left" { assert Lower(k) == "left"; }
    else { assert Lower(k) == "right"; }
  }

  lemma FunctionKeyIsAlphanumeric(n: nat)
    requires 1 <= n <= 24
    ensures Alphanumeric("F" + Decimal(n))
  {
    DecimalReads(n);
    var k := "F" + Decimal(n);
    forall i | 0 <= i < |k| ensures IsAlphanumeric(k[i]) {
      assert i > 0 ==> k[i] == Decimal(n)[i - 1];
    }
  }

  lemma FunctionKeyPlugin(n: nat)
    requires 1 <= n <= 24
    ensures PluginKey("F" + Decimal(n)) == Lower("F" + Decimal(n))
  {
    DecimalReads(n);
    var d := Decimal(n);
    var k := "F" + d;
    assert k[1..] == d;
    forall i | 0 <= i < |k| ensures Lower(k)[i] == ("f" + d)[i] {
      assert i > 0 ==> k[i] == d[i - 1] && IsDigit(d[i - 1]);
    }
    assert Lower(k) == "f" + d;
  }

  lemma FunctionKeyLower(n: nat)
    requires 1 <= n <= 24
    ensures ModifierNamed(Lower("F" + Decimal(n))).None?
  {
    assert Lower("F" + Decimal(n))[0] == 'f';
  }

  lemma SingleKeyLower(k: string)
    requires |k| == 1 && ('A' <= k[0] <= 'Z' || IsDigit(k[0]))
    ensures PluginKey(k) == Lower(k) && ModifierNamed(Lower(k)).None? && Alphanumeric(k)
  {
  }

  lemma CanonicalIsPlain(k: string)
    requires Canonical(k)
    ensures PluginKey(k) == Lower(k) && ModifierNamed(Lower(k)).None? && Plain(k) && Plain(Lower(k))
  {
    if k in EDITING_NAMES {
      EditingNameIsAlphanumeric(k);
      EditingNamePlugin(k);
      EditingNameLower(k);
    } else if k in MOVING_NAMES {
      MovingNameIsAlphanumeric(k);
      MovingNamePlugin(k);
      MovingNameLower(k);
    } else if IsFunctionKeyName(k) {
      var n :| 1 <= n <= 24 && k == "F" + Decimal(n);
      FunctionKeyIsAlphanumeric(n);
      FunctionKeyPlugin(n);
      FunctionKeyLower(n);
    } else {
      SingleKeyLower(k);
    }
    AlphanumericIsPlain(k);
  }

  // ----- parsing a printed hotkey

  lemma {:induction false} ParsePartsAppend(h: Hotkey, a: seq<string>, b: seq<string>)
    ensures ParseParts(h, a + b) == match ParseParts(h, a) { case Ok(h') => ParseParts(h', b) case Err(e) => Err(e) }
    decreases |a|
  {
    if a == [] {
      assert a + b == b;
    } else {
      assert (a + b)[1..] == a[1..] + b;
      var r := ParsePart(h, a[0]);
      if r.Ok? {
        ParsePartsAppend(r.value, a[1..], b);
      }
    }
  }

  /** A word both the splitter and the trimmer leave alone and the parser takes for this modifier. */
  predicate Means(word: string, m: Modifier) {
    Plain(word) && ModifierNamed(Lower(word)) == Some(m)
  }

  lemma WhenParses(h: Hotkey, b: bool, part: string, m: Modifier)
    requires Means(part, m)
    ensures ParseParts(h, When(b, part)) == Ok(if b then WithModifier(h, m) else h)
  {
    TidyIsTrimmed(part);
  }

  lemma KeyParses(h: Hotkey, part: string, k: string)
    requires Canonical(k) && h.key == "" && Plain(part) && Upper(part) == Upper(k) && ModifierNamed(Lower(part)).None?
    ensures ParseParts(h, [part]) == Ok(h.(key := k))
  {
    TidyIsTrimmed(part);
    CanonicalNormalizes(k, part);
  }

  lemma DisplayWords()
    ensures Means("Ctrl", Ctrl) && Means("Alt", Alt) && Means("Shift", Shift) && Means("Win", Meta)
  {
    AlphanumericIsPlain("Ctrl");
    AlphanumericIsPlain("Alt");
    AlphanumericIsPlain("Shift");
    AlphanumericIsPlain("Win");
    assert Lower("Ctrl") == "ctrl" && Lower("Alt") == "alt" && Lower("Shift") == "shift" && Lower("Win") == "win";
  }

  lemma ShortcutWords()
    ensures Means("ctrl", Ctrl) && Means("alt", Alt) && Means("shift", Shift) && Means("super", Meta)
  {
    AlphanumericIsPlain("ctrl");
    AlphanumericIsPlain("alt");
    AlphanumericIsPlain("shift");
    AlphanumericIsPlain("super");
    assert Lower("ctrl") == "ctrl" && Lower("alt") == "alt" && Lower("shift") == "shift" && Lower("super") == "super";
  }

  function Words(h: Hotkey, c: string, a: string, s: string, m: string, key: string): seq<string> {
    When(h.ctrl, c) + When(h.alt, a) + When(h.shift, s) + When(h.meta, m) + [key]
  }

  lemma WordsParse(h: Hotkey, c: string, a: string, s: string, m: string, key: string)
    requires Canonical(h.key) && Plain(key) && Upper(key) == Upper(h.key) && ModifierNamed(Lower(key)).None?
    requires Means(c, Ctrl) && Means(a, Alt) && Means(s, Shift) && Means(m, Meta)
    ensures ParseParts(Blank, Words(h, c, a, s, m, key)) == Ok(h)
  {
    var h1 := if h.ctrl then WithModifier(Blank, Ctrl) else Blank;
    var h2 := if h.alt then WithModifier(h1, Alt) else h1;
    var h3 := if h.shift then WithModifier(h2, Shift) else h2;
    var h4 := if h.meta then WithModifier(h3, Meta) else h3;
    WhenParses(Blank, h.ctrl, c, Ctrl);
    WhenParses(h1, h.alt, a, Alt);
    WhenParses(h2, h.shift, s, Shift);
    WhenParses(h3, h.meta, m, Meta);
    KeyParses(h4, key, h.key);
    ParsePartsAppend(Blank, When(h.ctrl, c), When(h.alt, a));
    ParsePartsAppend(Blank, When(h.ctrl, c) + When(h.alt, a), When(h.shift, s));
    ParsePartsAppend(Blank, When(h.ctrl, c) + When(h.alt, a) + When(h.shift, s), When(h.meta, m));
    ParsePartsAppend(Blank, When(h.ctrl, c) + When(h.alt, a) + When(h.shift, s) + When(h.meta, m), [key]);
  }

  /** What any successful parse returns: a canonical key and at least one modifier. */
  predicate Proper(h: Hotkey) {
    Canonical(h.key) && HasModifier(h)
  }

  ghost predicate AllPlain(parts: seq<string>) {
    forall i | 0 <= i < |parts| :: Plain(parts[i])
  }

  lemma WordsArePlain(h: Hotkey, c: string, a: string, s: string, m: string, key: string)
    requires Plain(c) && Plain(a) && Plain(s) && Plain(m) && Plain(key)
    ensures AllPlain(Words(h, c, a, s, m, key))
  {
  }

  lemma JoinedParses(h: Hotkey, parts: seq<string>)
    requires Proper(h) && parts != [] && AllPlain(parts)
    requires ParseParts(Blank, parts) == Ok(h)
    ensures Parse(Join(parts)) == Ok(h)
  {
    JoinIsTidy(parts);
    TidyIsTrimmed(Join(parts));
    SplitJoin(parts);
    CanonicalIsPlain(h.key);
  }

  lemma DisplayParses(h: Hotkey)
    requires Proper(h)
    ensures Parse(ToDisplay(h)) == Ok(h)
  {
    CanonicalIsPlain(h.key);
    DisplayWords();
    WordsParse(h, "Ctrl", "Alt", "Shift", "Win", h.key);
    WordsArePlain(h, "Ctrl", "Alt", "Shift", "Win", h.key);
    JoinedParses(h, Words(h, "Ctrl", "Alt", "Shift", "Win", h.key));
  }

  lemma ShortcutParses(h: Hotkey)
    requires Proper(h)
    ensures Parse(ToShortcut(h)) == Ok(h)
  {
    CanonicalIsPlain(h.key);
    ShortcutWords();
    UpperOfLower(h.key);
    LowerTwice(h.key);
    WordsParse(h, "ctrl", "alt", "shift", "super", PluginKey(h.key));
    WordsArePlain(h, "ctrl", "alt", "shift", "super", PluginKey(h.key));
    JoinedParses(h, Words(h, "ctrl", "alt", "shift", "super", PluginKey(h.key)));
  }

  lemma LowerTwice(s: string)
    ensures Lower(Lower(s)) == Lower(s)
  {
  }

  /** Both printed forms of a proper hotkey parse back to it. */
  lemma PrintedParses(h: Hotkey)
    requires Proper(h)
    ensures Parse(ToDisplay(h)) == Ok(h) && Parse(ToShortcut(h)) == Ok(h)
  {
    DisplayParses(h);
    ShortcutParses(h);
  }

  // ----- what the parser accepts

  predicate Flag(h: Hotkey, m: Modifier) {
    match m
    case Ctrl => h.ctrl
    case Alt => h.alt
    case Shift => h.shift
    case Meta => h.meta
  }

  predicate Names(raw: string, m: Modifier) {
    Trim(raw) != "" && ModifierNamed(Lower(Trim(raw))) == Some(m)
  }

  ghost predicate SomeNames(parts: seq<string>, m: Modifier) {
    exists i :: 0 <= i < |parts| && Names(parts[i], m)
  }

  /** The parts, trimmed, that are neither empty nor a modifier. */
  function KeyParts(parts: seq<string>): seq<string> {
    if parts == [] then []
    else
      var part := Trim(parts[0]);
      (if part == "" || ModifierNamed(Lower(part)).Some? then [] else [part]) + KeyParts(parts[1..])
  }

  lemma SomeNamesCons(first: string, rest: seq<string>, m: Modifier)
    ensures SomeNames([first] + rest, m) <==> Names(first, m) || SomeNames(rest, m)
  {
    var all := [first] + rest;
    if Names(first, m) {
      assert Names(all[0], m);
    }
    if SomeNames(rest, m) {
      var i :| 0 <= i < |rest| && Names(rest[i], m);
      assert Names(all[i + 1], m);
    }
    if SomeNames(all, m) {
      var i :| 0 <= i < |all| && Names(all[i], m);
      assert i > 0 ==> Names(rest[i - 1], m);
    }
  }

  lemma NormalizedIsNotEmpty(part: string)
    ensures NormalizeKey(part).Ok? ==> NormalizeKey(part).value != ""
  {
    KeyNamedIsCanonical(Upper(part));
  }

  /** One part: an empty one changes nothing, a modifier sets its flag, and anything else is the key. */
  lemma PartMeaning(h: Hotkey, raw: string, m: Modifier)
    ensures var part, r := Trim(raw), ParsePart(h, raw);
            if KeyParts([raw]) == [] then
              r.Ok? && r.value.key == h.key && (Flag(r.value, m) <==> Flag(h, m) || Names(raw, m))
            else
              && !Names(raw, m) && KeyParts([raw]) == [part]
              && (r.Ok? <==> h.key == "" && NormalizeKey(part).Ok?)
              && (r.Ok? ==> r.value.key == NormalizeKey(part).value && (Flag(r.value, m) <==> Flag(h, m)))
  {
    OneKeyPart(raw);
    var part := Trim(raw);
    if part != "" && ModifierNamed(Lower(part)).Some? {
      FlagAfter(h, ModifierNamed(Lower(part)).value, m);
    }
  }

  lemma OneKeyPart(raw: string)
    ensures var part := Trim(raw);
            KeyParts([raw]) == if part == "" || ModifierNamed(Lower(part)).Some? then [] else [part]
  {
    assert KeyParts([raw][1..]) == [];
  }

  lemma FlagAfter(h: Hotkey, named: Modifier, m: Modifier)
    ensures Flag(WithModifier(h, named), m) <==> Flag(h, m) || named == m
    ensures WithModifier(h, named).key == h.key
  {
  }

  lemma {:induction false} PartsMeaning(h: Hotkey, parts: seq<string>, m: Modifier)
    ensures var keys, r := KeyParts(parts), ParseParts(h, parts);
            && (r.Ok? <==> keys == [] || (h.key == "" && |keys| == 1 && NormalizeKey(keys[0]).Ok?))
            && (r.Ok? ==> (Flag(r.value, m) <==> Flag(h, m) || SomeNames(parts, m))
                          && r.value.key == if keys == [] then h.key else NormalizeKey(keys[0]).value)
    decreases |parts|
  {
    if parts != [] {
      var rest := parts[1..];
      assert parts == [parts[0]] + rest;
      PartMeaning(h, parts[0], m);
      SomeNamesCons(parts[0], rest, m);
      assert KeyParts(parts) == KeyParts([parts[0]]) + KeyParts(rest);
      var r := ParsePart(h, parts[0]);
      if r.Ok? {
        PartsMeaning(r.value, rest, m);
        NormalizedIsNotEmpty(Trim(parts[0]));
      }
    }
  }

  ghost predicate SomeModifier(parts: seq<string>) {
    SomeNames(parts, Ctrl) || SomeNames(parts, Alt) || SomeNames(parts, Shift) || SomeNames(parts, Meta)
  }

  /** The hotkey says which modifiers the parts name. */
  ghost predicate FlagsMatch(h: Hotkey, parts: seq<string>) {
    && (h.ctrl <==> SomeNames(parts, Ctrl)) && (h.alt <==> SomeNames(parts, Alt))
    && (h.shift <==> SomeNames(parts, Shift)) && (h.meta <==> SomeNames(parts, Meta))
  }

  lemma AllPartsMeaning(parts: seq<string>)
    ensures var keys, r := KeyParts(parts), ParseParts(Blank, parts);
            && (r.Ok? <==> keys == [] || (|keys| == 1 && NormalizeKey(keys[0]).Ok?))
            && (r.Ok? ==> FlagsMatch(r.value, parts)
                          && r.value.key == if keys == [] then "" else NormalizeKey(keys[0]).value)
  {
    PartsMeaning(Blank, parts, Ctrl);
    PartsMeaning(Blank, parts, Alt);
    PartsMeaning(Blank, parts, Shift);
    PartsMeaning(Blank, parts, Meta);
  }

  /** What the parser accepts, and what it makes of it: between the plus signs, blank parts aside,
      exactly one part that is a key and at least one modifier, in any order and repetition. */
  lemma ParserAccepts(input: string)
    ensures var parts := Split(Trim(input));
            Parse(input).Ok? <==>
              Trim(input) != "" && |KeyParts(parts)| == 1 && NormalizeKey(KeyParts(parts)[0]).Ok? && SomeModifier(parts)
    ensures Parse(input).Ok? ==>
              var parts := Split(Trim(input));
              NormalizeKey(KeyParts(parts)[0]) == Ok(Parse(input).value.key) && FlagsMatch(Parse(input).value, parts)
  {
    var parts := Split(Trim(input));
    AllPartsMeaning(parts);
    if KeyParts(parts) != [] {
      NormalizedIsNotEmpty(KeyParts(parts)[0]);
    }
  }

  lemma ParsedIsProper(input: string)
    requires Parse(input).Ok?
    ensures Proper(Parse(input).value)
  {
    ParserAccepts(input);
    NormalizedIsCanonical(KeyParts(Split(Trim(input)))[0]);
  }

  /** The round-trip theorem: whatever string a hotkey was parsed from, its display form and its
      shortcut form both parse back to that hotkey. */
  lemma ParsedHotkeyRoundTrips(input: string)
    requires Parse(input).Ok?
    ensures Parse(ToDisplay(Parse(input).value)) == Parse(input)
    ensures Parse(ToShortcut(Parse(input).value)) == Parse(input)
  {
    ParsedIsProper(input);
    PrintedParses(Parse(input).value);
  }

  /** Different parsed hotkeys are registered under different shortcuts. */
  lemma ShortcutIsInjective(a: string, b: string)
    requires Parse(a).Ok? && Parse(b).Ok?
    ensures ToShortcut(Parse(a).value) == ToShortcut(Parse(b).value) <==> Parse(a) == Parse(b)
  {
    ParsedHotkeyRoundTrips(a);
    ParsedHotkeyRoundTrips(b);
  }

  lemma DefaultDisplay(h: Hotkey)
    requires h == Hotkey(true, true, false, false, "0")
    ensures ToDisplay(h) == DEFAULT_HOTKEY
  {
    var parts := ["Ctrl", "Alt", "0"];
    assert DisplayParts(h) == parts;
    assert parts[1..] == ["Alt", "0"] && parts[1..][1..] == ["0"];
    assert Join(parts[1..]) == "Alt" + "+" + "0";
    assert Join(parts) == "Ctrl" + "+" + Join(parts[1..]);
  }

  lemma DefaultParses()
    ensures Parse(DEFAULT_HOTKEY) == Ok(Hotkey(true, true, false, false, "0"))
  {
    var h := Hotkey(true, true, false, false, "0");
    DefaultDisplay(h);
    assert Proper(h);
    PrintedParses(h);
  }

  lemma SanitizedIs(hotkey: string)
    ensures Parse(hotkey).Ok? ==> Parse(SanitizedHotkey(hotkey)) == Parse(hotkey)
    ensures Parse(hotkey).Err? ==> SanitizedHotkey(hotkey) == DEFAULT_HOTKEY
  {
    if Parse(hotkey).Ok? {
      ParsedHotkeyRoundTrips(hotkey);
    }
  }

  /** A sanitized hotkey parses, keeps what the user's string meant, and is left alone by sanitizing it
      again. */
  lemma SanitizeIsIdempotent(hotkey: string)
    ensures Parse(SanitizedHotkey(hotkey)).Ok?
    ensures Parse(hotkey).Ok? ==> Parse(SanitizedHotkey(hotkey)) == Parse(hotkey)
    ensures SanitizedHotkey(SanitizedHotkey(hotkey)) == SanitizedHotkey(hotkey)
  {
    SanitizedIs(hotkey);
    DefaultParses();
    DefaultDisplay(Hotkey(true, true, false, false, "0"));
  }

  /** The interval ends up in bounds, is changed only if it was not, and is left alone by clamping it again. */
  lemma ClampIsIdempotent(ms: nat)
    ensures Clamp(Clamp(ms)) == Clamp(ms)
    ensures MIN_REFRESH_INTERVAL_MS <= Clamp(ms) <= MAX_REFRESH_INTERVAL_MS
    ensures Clamp(ms) == ms <==> MIN_REFRESH_INTERVAL_MS <= ms <= MAX_REFRESH_INTERVAL_MS
  {
  }

  lemma RecorderNameIsCanonical(key: string)
    requires RecorderNamed(key).Some?
    ensures RecorderNamed(key).value in NAMES
  {
  }

  lemma RecorderKeyIsCanonical(key: string)
    requires RecorderKey(key).Some?
    ensures Canonical(RecorderKey(key).value)
  {
    if |key| == 1 && IsAlphanumeric(key[0]) {
    } else if IsFunctionKeyName(key) {
      var n :| 1 <= n <= 24 && key == "F" + Decimal(n);
      FunctionKeyUpper(n);
    } else {
      RecorderNameIsCanonical(key);
    }
  }

  /** Every string the recorder emits is accepted by the parser and is its own display form. */
  lemma RecordedIsFixedPoint(e: KeyEvent)
    requires Recorded(e).Some?
    ensures Parse(Recorded(e).value).Ok? && ToDisplay(Parse(Recorded(e).value).value) == Recorded(e).value
    ensures SanitizedHotkey(Recorded(e).value) == Recorded(e).value
  {
    RecorderKeyIsCanonical(e.key);
    PrintedParses(Hotkey(e.ctrl, e.alt, e.shift, e.meta, RecorderKey(e.key).value));
  }
}

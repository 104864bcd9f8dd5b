/** What the words of a hotkey mean: modifiers and keys under all their names, the keys of keyboard events, the errors,
    and the printed forms letter by letter. */
module HotkeyMeanings {
  import opened Options
  import opened Strings
  import opened Hotkeys
  import opened HotkeyTheorems

  // ----- the printed forms

  function Prefix(b: bool, word: string): string {
    if b then word + "+" else ""
  }

  lemma JoinMore(first: seq<string>, rest: seq<string>)
    requires |first| <= 1 && rest != []
    ensures Join(first + rest) == (if first == [] then "" else first[0] + "+") + Join(rest)
  {
    if first == [] {
      assert first + rest == rest;
    } else {
      assert (first + rest)[1..] == rest;
    }
  }

  lemma Nest(a: seq<string>, b: seq<string>, c: seq<string>)
    ensures a + b + c == a + (b + c)
  {
  }

  lemma WordsNest(h: Hotkey, c: string, a: string, s: string, m: string, key: string)
    ensures Words(h, c, a, s, m, key)
              == When(h.ctrl, c) + (When(h.alt, a) + (When(h.shift, s) + (When(h.meta, m) + [key])))
  {
    var w1, w2, w3, w4 := When(h.ctrl, c), When(h.alt, a), When(h.shift, s), When(h.meta, m);
    Nest(w1 + w2 + w3, w4, [key]);
    Nest(w1 + w2, w3, w4 + [key]);
    Nest(w1, w2, w3 + (w4 + [key]));
  }

  lemma JoinOne(b: bool, word: string, rest: seq<string>)
    requires rest != []
    ensures When(b, word) + rest != [] && Join(When(b, word) + rest) == Prefix(b, word) + Join(rest)
  {
    JoinMore(When(b, word), rest);
  }

  lemma JoinWords(h: Hotkey, c: string, a: string, s: string, m: string, key: string)
    ensures Join(Words(h, c, a, s, m, key))
              == Prefix(h.ctrl, c) + (Prefix(h.alt, a) + (Prefix(h.shift, s) + (Prefix(h.meta, m) + key)))
  {
    WordsNest(h, c, a, s, m, key);
    var r4 := When(h.meta, m) + [key];
    var r3 := When(h.shift, s) + r4;
    JoinOne(h.meta, m, [key]);
    JoinOne(h.shift, s, r4);
    JoinOne(h.alt, a, r3);
    JoinOne(h.ctrl, c, When(h.alt, a) + r3);
  }

  /** The display form names the modifiers in one fixed order and then the key. */
  lemma DisplayIs(h: Hotkey)
    ensures ToDisplay(h)
              == Prefix(h.ctrl, "Ctrl")
                 + (Prefix(h.alt, "Alt") + (Prefix(h.shift, "Shift") + (Prefix(h.meta, "Win") + h.key)))
  {
    JoinWords(h, "Ctrl", "Alt", "Shift", "Win", h.key);
  }

  /** The shortcut form too, with the key in lower case. */
  lemma ShortcutIs(h: Hotkey)
    requires Canonical(h.key)
    ensures ToShortcut(h)
              == Prefix(h.ctrl, "ctrl")
                 + (Prefix(h.alt, "alt") + (Prefix(h.shift, "shift") + (Prefix(h.meta, "super") + Lower(h.key))))
  {
    CanonicalIsPlain(h.key);
    JoinWords(h, "ctrl", "alt", "shift", "super", PluginKey(h.key));
  }

  // ----- names

  /** What a modifier may be called. */
  function ModifierWords(m: Modifier): set<string> {
    match m
    case Ctrl => {"ctrl", "control"}
    case Alt => {"alt", "option"}
    case Shift => {"shift"}
    case Meta => {"win", "windows", "super", "meta", "cmd", "command"}
  }

  lemma ModifierIff(word: string, m: Modifier)
    ensures ModifierNamed(word) == Some(m) <==> word in ModifierWords(m)
  {
  }

  /** What else a named key may be called, in upper case. */
  function Nicknames(k: string): set<string> {
    if k == "Enter" then {"RETURN"}
    else if k == "Escape" then {"ESC"}
    else if k == "Delete" then {"DEL"}
    else if k == "Insert" then {"INS"}
    else if k == "PageUp" then {"PGUP"}
    else if k == "PageDown" then {"PGDN"}
    else if k == "PrintScreen" then {"PRTSC"}
    else {}
  }

  lemma NicknameMeans(k: string, upper: string)
    requires upper in Nicknames(k)
    ensures KeyNamed(upper) == Some(k)
  {
  }

  lemma WhitespaceNameMeant(upper: string, k: string)
    requires KeyNamed(upper) == Some(k) && k in {"Space", "Backspace", "Tab", "Enter"}
    ensures upper == Upper(k) || upper in Nicknames(k)
  {
    assert Upper("Space") == "SPACE" && Upper("Backspace") == "BACKSPACE" && Upper("Tab") == "TAB";
    assert Upper("Enter") == "ENTER";
  }

  lemma EditingNameMeant(upper: string, k: string)
    requires KeyNamed(upper) == Some(k) && k in {"Escape", "Delete", "Insert", "PrintScreen"}
    ensures upper == Upper(k) || upper in Nicknames(k)
  {
    assert Upper("Escape") == "ESCAPE" && Upper("Delete") == "DELETE";
    assert Upper("Insert") == "INSERT" && Upper("PrintScreen") == "PRINTSCREEN";
  }

  lemma PageNameMeant(upper: string, k: string)
    requires KeyNamed(upper) == Some(k) && k in {"Home", "End", "PageUp", "PageDown"}
    ensures upper == Upper(k) || upper in Nicknames(k)
  {
    assert Upper("Home") == "HOME" && Upper("End") == "END";
    assert Upper("PageUp") == "PAGEUP" && Upper("PageDown") == "PAGEDOWN";
  }

  lemma ArrowNameMeant(upper: string, k: string)
    requires KeyNamed(upper) == Some(k) && k in {"Up", "Down", "Left", "Right"}
    ensures upper == Upper(k) || upper in Nicknames(k)
  {
    assert Upper("Up") == "UP" && Upper("Down") == "DOWN" && Upper("Left") == "LEFT" && Upper("Right") == "RIGHT";
  }

  lemma NameMeant(upper: string, k: string)
    requires KeyNamed(upper) == Some(k) && k in NAMES
    ensures upper == Upper(k) || upper in Nicknames(k)
  {
    if k in {"Space", "Backspace", "Tab", "Enter"} {
      WhitespaceNameMeant(upper, k);
    } else if k in {"Escape", "Delete", "Insert", "PrintScreen"} {
      EditingNameMeant(upper, k);
    } else if k in {"Home", "End", "PageUp", "PageDown"} {
      PageNameMeant(upper, k);
    } else {
      ArrowNameMeant(upper, k);
    }
  }

  /** A named key is meant by its own name and its nicknames, and by nothing else. */
  lemma KeyNamedIff(upper: string, k: string)
    ensures KeyNamed(upper) == Some(k) <==> k in NAMES && (upper == Upper(k) || upper in Nicknames(k))
  {
    KeyNamedIsCanonical(upper);
    if k in EDITING_NAMES {
      EditingNameUpper(k);
    } else if k in MOVING_NAMES {
      MovingNameUpper(k);
    }
    if KeyNamed(upper) == Some(k) {
      NameMeant(upper, k);
    }
    if upper in Nicknames(k) {
      NicknameMeans(k, upper);
    }
  }

  // ----- errors

  lemma {:induction false} PartsError(h: Hotkey, parts: seq<string>)
    ensures var keys, r := KeyParts(parts), ParseParts(h, parts);
            r.Err? ==>
              && keys != []
              && r.error == if h.key == "" && NormalizeKey(keys[0]).Err? then UnsupportedKey(keys[0]) else TooManyParts
    decreases |parts|
  {
    if parts != [] {
      assert KeyParts(parts) == KeyParts([parts[0]]) + KeyParts(parts[1..]) by {
        OneKeyPart(parts[0]);
      }
      PartMeaning(h, parts[0], Ctrl);
      var r := ParsePart(h, parts[0]);
      if r.Ok? {
        PartsError(r.value, parts[1..]);
        NormalizedIsNotEmpty(Trim(parts[0]));
      } else {
        PartError(h, parts[0]);
      }
    }
  }

  lemma PartError(h: Hotkey, raw: string)
    requires ParsePart(h, raw).Err?
    ensures KeyParts([raw]) == [Trim(raw)]
    ensures ParsePart(h, raw).error
              == if h.key == "" && NormalizeKey(Trim(raw)).Err? then UnsupportedKey(Trim(raw)) else TooManyParts
  {
    OneKeyPart(raw);
  }

  /** Each of the four errors means one thing, checked in this order. */
  lemma ParserErrors(input: string)
    ensures var keys := KeyParts(Split(Trim(input)));
            Parse(input).Err? ==>
              Parse(input).error ==
                if Trim(input) == "" then Empty
                else if keys == [] then UnsupportedKey("no key specified")
                else if NormalizeKey(keys[0]).Err? then UnsupportedKey(keys[0])
                else if |keys| > 1 then TooManyParts
                else MissingModifier
  {
    var parts := Split(Trim(input));
    AllPartsMeaning(parts);
    PartsError(Blank, parts);
    if KeyParts(parts) != [] {
      NormalizedIsNotEmpty(KeyParts(parts)[0]);
    }
  }

  // ----- the recorder

  /** The values of a keyboard event's key that mean this key. */
  function EventKeys(k: string): set<string> {
    if |k| == 1 then {k, Lower(k)}
    else if k == "Space" then {" "}
    else if k in {"Up", "Down", "Left", "Right"} then {"Arrow" + k}
    else if k == "PrintScreen" then {}
    else {k}
  }

  lemma RecorderMeans(key: string)
    requires RecorderKey(key).Some?
    ensures Canonical(RecorderKey(key).value) && key in EventKeys(RecorderKey(key).value)
  {
    RecorderKeyIsCanonical(key);
    if |key| == 1 && IsAlphanumeric(key[0]) {
      var k := Upper(key);
      assert key == k || key == Lower(k);
    } else if IsFunctionKeyName(key) {
      FunctionKeyMeans(key);
    } else {
      RecorderNameMeans(key);
    }
  }

  lemma RecorderNameMeans(key: string)
    requires RecorderNamed(key).Some?
    ensures key in EventKeys(RecorderNamed(key).value)
  {
    assert "Arrow" + "Up" == "ArrowUp" && "Arrow" + "Down" == "ArrowDown";
    assert "Arrow" + "Left" == "ArrowLeft" && "Arrow" + "Right" == "ArrowRight";
  }

  lemma FunctionKeyMeans(key: string)
    requires IsFunctionKeyName(key)
    ensures Upper(key) == key && |key| > 1 && key[0] == 'F' && IsDigit(key[1]) && EventKeys(key) == {key}
  {
    var n :| 1 <= n <= 24 && key == "F" + Decimal(n);
    FunctionKeyUpper(n);
    DecimalReads(n);
    assert key[1] == Decimal(n)[0];
  }

  lemma EventKeyRecords(key: string, k: string)
    requires Canonical(k) && key in EventKeys(k)
    ensures RecorderKey(key) == Some(k)
  {
    if |k| == 1 {
      assert Upper(key) == k;
    } else if IsFunctionKeyName(k) {
      FunctionKeyMeans(k);
    } else {
      NamedEventKey(key, k);
    }
  }

  lemma NotFunctionKey(key: string)
    requires |key| < 2 || key[0] != 'F'
    ensures !IsFunctionKeyName(key)
  {
    if IsFunctionKeyName(key) {
      FunctionKeyMeans(key);
    }
  }

  lemma ArrowEventKey(key: string, k: string)
    requires k in {"Up", "Down", "Left", "Right"} && key == "Arrow" + k
    ensures RecorderNamed(key) == Some(k) && |key| > 1 && key[0] != 'F'
  {
    if k == "Up" { assert key == "ArrowUp"; }
    else if k == "Down" { assert key == "ArrowDown"; }
    else if k == "Left" { assert key == "ArrowLeft"; }
    else { assert key == "ArrowRight"; }
  }

  lemma NamedEventKey(key: string, k: string)
    requires k in NAMES && key in EventKeys(k)
    ensures RecorderKey(key) == Some(k)
  {
    if k in {"Up", "Down", "Left", "Right"} {
      ArrowEventKey(key, k);
    }
    NotFunctionKey(key);
  }

  /** The recorder takes an event for a canonical key exactly when the event's key is one of those that mean it. */
  lemma RecorderKeyIff(key: string, k: string)
    ensures RecorderKey(key) == Some(k) <==> Canonical(k) && key in EventKeys(k)
  {
    if RecorderKey(key) == Some(k) {
      RecorderMeans(key);
    }
    if Canonical(k) && key in EventKeys(k) {
      EventKeyRecords(key, k);
    }
  }

  /** What the recorder emits parses to the event: the same modifiers, and a key that the event's key means. */
  lemma RecordedMeansEvent(e: KeyEvent)
    ensures Recorded(e).Some? ==>
              && Parse(Recorded(e).value).Ok?
              && var h := Parse(Recorded(e).value).value;
                 && h.ctrl == e.ctrl && h.alt == e.alt && h.shift == e.shift && h.meta == e.meta
                 && Canonical(h.key) && e.key in EventKeys(h.key)
    ensures Recorded(e).None? ==>
              !(e.ctrl || e.alt || e.shift || e.meta) || forall k | Canonical(k) :: e.key !in EventKeys(k)
  {
    if Recorded(e).Some? {
      RecorderMeans(e.key);
      PrintedParses(Hotkey(e.ctrl, e.alt, e.shift, e.meta, RecorderKey(e.key).value));
    } else if e.ctrl || e.alt || e.shift || e.meta {
      forall k | Canonical(k) ensures e.key !in EventKeys(k) {
        RecorderKeyIff(e.key, k);
      }
    }
  }

  // ----- which words name which key

  /** The same function key with its number written differently. */
  predicate SameFunctionKey(upper: string, k: string) {
    && |upper| > 1 && upper[0] == 'F' && AllDigits(upper[1..])
    && |k| > 1 && k[0] == 'F' && AllDigits(k[1..]) && Number(upper[1..]) == Number(k[1..])
  }

  /** A word in any letter case under which a key is known. */
  predicate NamesKey(part: string, k: string) {
    Upper(part) == Upper(k) || Upper(part) in Nicknames(k) || SameFunctionKey(Upper(part), k)
  }

  lemma FunctionKeyNumber(k: string)
    requires IsFunctionKeyName(k)
    ensures |k| > 1 && k[0] == 'F' && AllDigits(k[1..]) && 1 <= Number(k[1..]) <= 24
    ensures k == "F" + Decimal(Number(k[1..])) && Nicknames(k) == {} && FunctionKey(k) == Some(Number(k[1..]))
  {
    var n :| 1 <= n <= 24 && k == "F" + Decimal(n);
    FunctionKeyUpper(n);
    DecimalReads(n);
    assert k[1..] == Decimal(n);
  }

  lemma NormalizedIsNamed(part: string, k: string)
    requires NormalizeKey(part) == Ok(k)
    ensures Canonical(k) && NamesKey(part, k)
  {
    var upper := Upper(part);
    NormalizedIsCanonical(part);
    if |upper| == 1 && IsAlphanumeric(upper[0]) {
      assert Upper(k) == upper;
    } else if FunctionKey(upper).Some? {
      var n := FunctionKey(upper).value;
      FunctionKeyNumber("F" + Decimal(n));
      DecimalReads(n);
      assert ("F" + Decimal(n))[1..] == Decimal(n);
    } else {
      KeyNamedIff(upper, k);
    }
  }

  lemma NicknameNormalizes(part: string, k: string)
    requires Upper(part) in Nicknames(k)
    ensures NormalizeKey(part) == Ok(k)
  {
    NicknameMeans(k, Upper(part));
    assert Upper(part)[0] != 'F' && |Upper(part)| > 1;
  }

  lemma SameFunctionKeyNormalizes(part: string, k: string)
    requires Canonical(k) && SameFunctionKey(Upper(part), k)
    ensures NormalizeKey(part) == Ok(k)
  {
    assert k !in NAMES by {
      if k in NAMES {
        NamesAreNoFunctionKeys(k);
      }
    }
    FunctionKeyNumber(k);
  }

  lemma NamesAreNoFunctionKeys(k: string)
    requires k in NAMES
    ensures k[0] != 'F'
  {
  }

  /** A word normalizes to a key exactly when the key is canonical and the word names it: in any letter case, by its own
      name, by a nickname, or, for a function key, by its number with leading zeros. */
  lemma NormalizeIff(part: string, k: string)
    ensures NormalizeKey(part) == Ok(k) <==> Canonical(k) && NamesKey(part, k)
  {
    if NormalizeKey(part) == Ok(k) {
      NormalizedIsNamed(part, k);
    }
    if Canonical(k) && NamesKey(part, k) {
      if Upper(part) == Upper(k) {
        CanonicalNormalizes(k, part);
      } else if Upper(part) in Nicknames(k) {
        NicknameNormalizes(part, k);
      } else {
        SameFunctionKeyNormalizes(part, k);
      }
    }
  }

  lemma LowerOfUpper(s: string)
    ensures Lower(Upper(s)) == Lower(s)
  {
  }

  lemma NicknameIsNoModifier(k: string, upper: string)
    requires upper in Nicknames(k)
    ensures ModifierNamed(Lower(upper)).None?
  {
    if upper == "RETURN" { assert Lower(upper) == "return"; }
    else if upper == "ESC" { assert Lower(upper) == "esc"; }
    else if upper == "DEL" { assert Lower(upper) == "del"; }
    else if upper == "INS" { assert Lower(upper) == "ins"; }
    else if upper == "PGUP" { assert Lower(upper) == "pgup"; }
    else if upper == "PGDN" { assert Lower(upper) == "pgdn"; }
    else { assert Lower(upper) == "prtsc"; }
  }

  lemma KeyWordIsNoModifier(part: string, k: string)
    requires Canonical(k) && NamesKey(part, k)
    ensures ModifierNamed(Lower(part)).None?
  {
    LowerOfUpper(part);
    if Upper(part) == Upper(k) {
      LowerOfUpper(k);
      CanonicalIsPlain(k);
    } else if Upper(part) in Nicknames(k) {
      NicknameIsNoModifier(k, Upper(part));
    } else {
      assert Lower(part)[0] == LowerChar(Upper(part)[0]) == 'f';
    }
  }

  /** A modifier and a key parse under any of their names, in any letter case. */
  lemma NamesParse(word: string, m: Modifier, part: string, k: string)
    requires Plain(word) && Lower(word) in ModifierWords(m)
    requires Plain(part) && Canonical(k) && NamesKey(part, k)
    ensures Parse(word + "+" + part) == Ok(WithModifier(Blank, m).(key := k))
  {
    ModifierIff(Lower(word), m);
    NormalizeIff(part, k);
    KeyWordIsNoModifier(part, k);
    var h, parts := WithModifier(Blank, m).(key := k), [word, part];
    TidyIsTrimmed(word);
    TidyIsTrimmed(part);
    assert parts[1..] == [part] && [part][1..] == [];
    assert ParseParts(WithModifier(Blank, m), [part]) == Ok(h);
    assert Join(parts) == word + "+" + part;
    JoinedParses(h, parts);
  }
}

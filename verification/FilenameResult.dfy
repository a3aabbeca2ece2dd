/** What a sanitized name looks like, character by character, in terms of the
    name it was made from. */
module FilenameResult {
  import opened Options
  import opened Seqs
  import opened Texts
  import opened Utf8
  import opened Filename

  // ----- Illegal characters -----

  /** The forbidden characters, rule set by rule set; control characters always. */
  predicate Forbidden(c: char, rules: Rules) {
    || 0 <= c as int <= 31 || 127 <= c as int <= 159
    || c == '/'
    || (c == ':' && !rules.Posix?)
    || (c in {'<', '>', '"', '\\', '|', '?', '*'} && (rules.Windows? || rules.Fat? || rules.Universal?))
  }

  lemma {:induction false} IllegalExactly(c: char, rules: Rules)
    ensures rules.IsIllegalChar(c) <==> Forbidden(c, rules)
  {
    WindowsCharsAre(c);
    assert c in ILLEGAL_HFS_CHARS <==> c == '/' || c == ':';
    assert c in ILLEGAL_POSIX_CHARS <==> c == '/';
  }

  lemma {:induction false} WindowsCharsAre(c: char)
    ensures c in ILLEGAL_WINDOWS_CHARS <==> c in {'<', '>', ':', '"', '/', '\\', '|', '?', '*'}
  {
    var s := ILLEGAL_WINDOWS_CHARS;
    assert s[0] == '<' && s[1] == '>' && s[2] == ':' && s[3] == '"' && s[4] == '/' && s[5] == '\\';
    assert s[6] == '|' && s[7] == '?' && s[8] == '*' && |s| == 9;
  }

  /** Each character is replaced or kept where it stands, whatever is around it
      and whatever the replacement is. */
  lemma {:induction false} ReplacedAround(before: string, c: char, after: string, rules: Rules, replacement: string)
    ensures Replaced("", rules, replacement) == ""
    ensures Replaced(before + [c] + after, rules, replacement)
            == Replaced(before, rules, replacement) + (if Forbidden(c, rules) then replacement else [c])
               + Replaced(after, rules, replacement)
    decreases |after|
  {
    var head := before + [c];
    ReplacedSnoc(before, c, rules, replacement);
    if after == "" {
      assert head + after == head && Replaced(head, rules, replacement) + "" == Replaced(head, rules, replacement);
    } else {
      var init, last := after[..|after| - 1], after[|after| - 1];
      var tail := if Forbidden(last, rules) then replacement else [last];
      ReplacedAround(before, c, init, rules, replacement);
      assert after == init + [last];
      Assoc(head, init, [last]);
      ReplacedSnoc(head + init, last, rules, replacement);
      ReplacedSnoc(init, last, rules, replacement);
      Assoc(Replaced(head, rules, replacement), Replaced(init, rules, replacement), tail);
    }
  }

  lemma {:induction false} ReplacedSnoc(name: string, c: char, rules: Rules, replacement: string)
    ensures Replaced(name + [c], rules, replacement)
            == Replaced(name, rules, replacement) + (if Forbidden(c, rules) then replacement else [c])
  {
    assert (name + [c])[..|name|] == name;
    IllegalExactly(c, rules);
  }

  /** The name with every forbidden character, and no other, turned into '_'. */
  function Masked(name: string, rules: Rules): string {
    seq(|name|, i requires 0 <= i < |name| => if Forbidden(name[i], rules) then '_' else name[i])
  }

  lemma {:induction false} ReplacedIsMasked(name: string, rules: Rules)
    ensures Replaced(name, rules, "_") == Masked(name, rules)
  {
    if name != "" {
      var init, last := name[..|name| - 1], name[|name| - 1];
      ReplacedIsMasked(init, rules);
      IllegalExactly(last, rules);
      assert Masked(name, rules) == Masked(init, rules) + [if Forbidden(last, rules) then '_' else last];
    }
  }

  lemma {:induction false} MaskedFits(name: string, rules: Rules)
    ensures ByteLength(Masked(name, rules)) <= ByteLength(name)
  {
    if name != "" {
      var init, last := name[..|name| - 1], name[|name| - 1];
      var masked := if Forbidden(last, rules) then '_' else last;
      MaskedFits(init, rules);
      assert Masked(name, rules) == Masked(init, rules) + [masked] && name == init + [last];
      SnocFits(Masked(init, rules), masked, init, last);
    }
  }

  lemma {:induction false} SnocFits(a: string, c: char, b: string, d: char)
    requires ByteLength(a) <= ByteLength(b) && |Encode(c)| <= |Encode(d)|
    ensures ByteLength(a + [c]) <= ByteLength(b + [d])
  {
    BytesOfSnoc(a, c);
    BytesOfSnoc(b, d);
  }

  // ----- Reserved names -----

  const RESERVED: set<string> := {
    "con", "prn", "aux", "nul", "com1", "com2", "com3", "com4", "com5", "com6", "com7", "com8", "com9",
    "lpt1", "lpt2", "lpt3", "lpt4", "lpt5", "lpt6", "lpt7", "lpt8", "lpt9" }

  /** Equal up to the case of ASCII letters; `lower` is in lower case. */
  predicate EqualsIgnoringCase(s: string, lower: string) {
    && |s| == |lower|
    && forall i :: 0 <= i < |s| ==>
         s[i] == lower[i] || ('A' <= s[i] <= 'Z' && s[i] as int - 'A' as int == lower[i] as int - 'a' as int)
  }

  predicate IsReserved(stem: string) {
    exists name :: name in RESERVED && EqualsIgnoringCase(stem, name)
  }

  lemma {:induction false} DeviceNamesAre(s: string)
    ensures IsDeviceName(s) <==> s in RESERVED
  {
    if IsDeviceName(s) && |s| == 4 {
      NumberedName(s[..3], s[3]);
      assert s == s[..3] + [s[3]];
    }
  }

  lemma {:induction false} NumberedName(port: string, c: char)
    requires (port == "com" || port == "lpt") && '1' <= c <= '9'
    ensures port + [c] in RESERVED
  {
    var name := port + [c];
    match c
    case '1' => assert name == "com1" || name == "lpt1";
    case '2' => assert name == "com2" || name == "lpt2";
    case '3' => assert name == "com3" || name == "lpt3";
    case '4' => assert name == "com4" || name == "lpt4";
    case '5' => assert name == "com5" || name == "lpt5";
    case '6' => assert name == "com6" || name == "lpt6";
    case '7' => assert name == "com7" || name == "lpt7";
    case '8' => assert name == "com8" || name == "lpt8";
    case '9' => assert name == "com9" || name == "lpt9";
  }

  lemma {:induction false} LowerCaseEquals(s: string, lower: string)
    requires lower in RESERVED
    ensures LowerCase(s) == lower <==> EqualsIgnoringCase(s, lower)
  {
  }

  lemma {:induction false} ReservedExactly(stem: string)
    ensures IsDeviceName(LowerCase(stem)) <==> IsReserved(stem)
  {
    DeviceNamesAre(LowerCase(stem));
    forall name | name in RESERVED ensures LowerCase(stem) == name <==> EqualsIgnoringCase(stem, name) {
      LowerCaseEquals(stem, name);
    }
  }

  // ----- The passes, as relations -----

  predicate IsRun(s: string) {
    forall i :: 0 <= i < |s| ==> s[i] == '.' || s[i] == ' '
  }

  predicate EndsInDotOrSpace(s: string) {
    s != "" && (s[|s| - 1] == '.' || s[|s| - 1] == ' ')
  }

  /** A trailing run of dots and spaces, if there is one, makes room for one replacement. */
  predicate CollapsesTo(name: string, result: string, replacement: string, kept: string, run: string) {
    && name == kept + run && IsRun(run) && !EndsInDotOrSpace(kept)
    && result == if run == "" then kept else kept + replacement
  }

  /** A reserved name before the first dot makes room for one replacement. */
  predicate FreesName(name: string, result: string, replacement: string, stem: string, rest: string) {
    && name == stem + rest && '.' !in stem && (rest == "" || rest[0] == '.')
    && result == if IsReserved(stem) then replacement + rest else name
  }

  /** As many whole characters as fit in 255 bytes. */
  predicate CutsTo(name: string, result: string) {
    && result <= name && ByteLength(result) <= 255
    && forall k :: |result| < k <= |name| ==> ByteLength(name[..k]) > 255
  }

  lemma {:induction false} TrimmedLeavesRun(name: string)
    ensures Trimmed(name) <= name && IsRun(name[|Trimmed(name)|..])
  {
    if EndsInRun(name) {
      var init := name[..|name| - 1];
      TrimmedLeavesRun(init);
      var n := |Trimmed(init)|;
      assert name[n..] == init[n..] + [name[|name| - 1]];
    }
  }

  lemma {:induction false} CollapseIs(name: string, replacement: string) returns (kept: string, run: string)
    ensures CollapsesTo(name, Collapsed(name, replacement), replacement, kept, run)
  {
    kept := Trimmed(name);
    run := name[|kept|..];
    TrimmedLeavesRun(name);
  }

  lemma {:induction false} UnreservedIs(name: string, replacement: string) returns (stem: string, rest: string)
    ensures FreesName(name, Unreserved(name, replacement), replacement, stem, rest)
  {
    stem := Stem(name);
    rest := name[|stem|..];
    ReservedExactly(stem);
    assert name[..|stem|] == stem;
    assert Unreserved(name, replacement) == if IsReserved(stem) then replacement + rest else name;
  }

  lemma {:induction false} LongestIs(name: string)
    ensures CutsTo(name, Longest(name, MAX_LEN))
  {
    forall k: nat | |Longest(name, MAX_LEN)| < k <= |name| ensures ByteLength(name[..k]) > 255 {
      LongestIsGreatest(name, MAX_LEN, k);
    }
  }

  ghost predicate Collapses(name: string, result: string, replacement: string) {
    exists kept, run :: CollapsesTo(name, result, replacement, kept, run)
  }

  ghost predicate Frees(name: string, result: string, replacement: string) {
    exists stem, rest :: FreesName(name, result, replacement, stem, rest)
  }

  /** An unusable name gives way to the placeholder. */
  predicate Settles(name: string, result: string, placeholder: string) {
    if name == "" || name == "." || name == ".." then CutsTo(placeholder, result) else result == name
  }

  /** Under Windows rules: collapse, free the reserved name, cut, collapse what
      the cut left, cut again, and do not leave the name unusable. For every
      replacement and placeholder. */
  lemma {:induction false} WindowsPasses(name: string, rules: Rules, settings: Settings)
    returns (collapsed: string, freed: string, cut: string, again: string, last: string)
    requires rules.Windows? || rules.Universal?
    ensures var replacement := settings.replacement;
            && Collapses(Replaced(name, rules, replacement), collapsed, replacement)
            && Frees(collapsed, freed, replacement)
            && CutsTo(freed, cut) && Collapses(cut, again, replacement) && CutsTo(again, last)
            && Settles(last, Sanitized(name, rules, settings), settings.placeholder)
  {
    collapsed, freed := FirstPasses(Replaced(name, rules, settings.replacement), rules, settings.replacement);
    cut, again, last := LaterPasses(freed, rules, settings.replacement);
    Settled(name, rules, settings);
  }

  lemma {:induction false} FirstPasses(name: string, rules: Rules, replacement: string)
    returns (collapsed: string, freed: string)
    requires rules.IsWindowsLike()
    ensures Collapses(name, collapsed, replacement) && Frees(collapsed, freed, replacement)
    ensures Guarded(name, rules, replacement) == freed
  {
    var kept, run := CollapseIs(name, replacement);
    collapsed := Collapsed(name, replacement);
    var stem, rest := UnreservedIs(collapsed, replacement);
    freed := Unreserved(collapsed, replacement);
  }

  lemma {:induction false} LaterPasses(name: string, rules: Rules, replacement: string)
    returns (cut: string, again: string, last: string)
    requires rules.IsWindowsLike()
    ensures CutsTo(name, cut) && Collapses(cut, again, replacement) && CutsTo(again, last)
    ensures Shortened(name, rules, replacement) == last
  {
    LongestIs(name);
    cut := Longest(name, MAX_LEN);
    var kept, run := CollapseIs(cut, replacement);
    again := Collapsed(cut, replacement);
    LongestIs(again);
    last := Longest(again, MAX_LEN);
  }

  lemma {:induction false} Settled(name: string, rules: Rules, settings: Settings)
    ensures Settles(Rewritten(name, rules, settings.replacement), Sanitized(name, rules, settings),
                    settings.placeholder)
  {
    LongestIs(settings.placeholder);
  }

  /** Under the other rules there is only the cut. */
  lemma {:induction false} OtherPasses(name: string, rules: Rules, settings: Settings) returns (cut: string)
    requires !rules.Windows? && !rules.Universal?
    ensures CutsTo(Replaced(name, rules, settings.replacement), cut)
    ensures Settles(cut, Sanitized(name, rules, settings), settings.placeholder)
  {
    LongestIs(Replaced(name, rules, settings.replacement));
    cut := Longest(Replaced(name, rules, settings.replacement), MAX_LEN);
    Settled(name, rules, settings);
  }

  // ----- Names that need no cut -----

  lemma {:induction false} MaskedKeepsRelative(name: string, rules: Rules)
    ensures Masked(name, rules) == "." <==> name == "."
    ensures Masked(name, rules) == ".." <==> name == ".."
  {
    assert !Forbidden('.', rules);
    forall i | 0 <= i < |name| ensures Masked(name, rules)[i] == '.' <==> name[i] == '.' {
    }
  }

  /** A usable name of at most 255 bytes keeps its length and every character
      that is not forbidden, where Windows does not object to the whole. */
  lemma {:induction false} OtherKeepsName(name: string, rules: Rules)
    requires !rules.Windows? && !rules.Universal?
    requires name != "" && name != "." && name != ".." && ByteLength(name) <= 255
    ensures var result := Sanitized(name, rules, DEFAULTS);
            && |result| == |name|
            && forall i :: 0 <= i < |name| ==> result[i] == if Forbidden(name[i], rules) then '_' else name[i]
  {
    MaskedKeepsRelative(name, rules);
    OtherRewritten(name, rules);
    Settled(name, rules, DEFAULTS);
  }

  lemma {:induction false} OtherRewritten(name: string, rules: Rules)
    requires !rules.IsWindowsLike() && ByteLength(name) <= MAX_LEN
    ensures Rewritten(name, rules, "_") == Masked(name, rules)
  {
    ReplacedIsMasked(name, rules);
    MaskedFits(name, rules);
  }

  /** And under Windows rules it is the same, but for a trailing run of dots and
      spaces and a reserved stem, each of which becomes one '_'. */
  lemma {:induction false} WindowsKeepsName(name: string, rules: Rules)
    returns (kept: string, run: string, stem: string, rest: string)
    requires (rules.Windows? || rules.Universal?) && name != "" && ByteLength(name) <= 255
    ensures Masked(name, rules) == kept + run && IsRun(run) && !EndsInDotOrSpace(kept)
    ensures (if run == "" then kept else kept + "_") == stem + rest && '.' !in stem && (rest == "" || rest[0] == '.')
    ensures Sanitized(name, rules, DEFAULTS) == (if IsReserved(stem) then "_" else stem) + rest
  {
    var masked := Masked(name, rules);
    kept, run := CollapseIs(masked, "_");
    stem, rest := UnreservedIs(Collapsed(masked, "_"), "_");
    WindowsRewritten(name, rules);
    Settled(name, rules, DEFAULTS);
    assert Collapsed(masked, "_") != "";
  }

  lemma {:induction false} WindowsRewritten(name: string, rules: Rules)
    requires rules.IsWindowsLike() && ByteLength(name) <= MAX_LEN
    ensures Rewritten(name, rules, "_") == Unreserved(Collapsed(Masked(name, rules), "_"), "_")
    ensures !EndsInRun(Rewritten(name, rules, "_"))
  {
    var masked := Masked(name, rules);
    ReplacedIsMasked(name, rules);
    MaskedFits(name, rules);
    CollapsedFits(masked, MAX_LEN);
    UnreservedFits(Collapsed(masked, "_"));
    UnreservedEnds(masked);
    ShortStays(Unreserved(Collapsed(masked, "_"), "_"), rules);
  }

  lemma {:induction false} ShortStays(name: string, rules: Rules)
    requires ByteLength(name) <= MAX_LEN && !EndsInRun(name)
    ensures Shortened(name, rules, "_") == name
  {
  }

  lemma {:induction false} UnreservedFits(name: string)
    requires ByteLength(name) <= MAX_LEN
    ensures ByteLength(Unreserved(name, "_")) <= MAX_LEN
  {
    if ReservedPrefix(name).Some? {
      var stem := Stem(name);
      var rest := name[|stem|..];
      BytesOfPrefix(name, |stem|);
      assert name[..|stem|] == stem;
      ByteLengthBounds(stem);
      BytesOfAppend("_", rest);
      assert Bytes("_") == Bytes("") + Encode('_');
    }
  }

  lemma {:induction false} UnreservedEnds(name: string)
    ensures !EndsInRun(Unreserved(Collapsed(name, "_"), "_"))
  {
    var collapsed := Collapsed(name, "_");
    assert !EndsInRun(collapsed);
  }
}

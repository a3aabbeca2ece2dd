/** Rewriting of peer-supplied file names into legal ones, and the one-pass
    test of legality it agrees with. */
module Filename {
  import opened Options
  import opened Texts
  import opened Utf8

  const ILLEGAL_WINDOWS_CHARS: string := "<>:\"/\\|?*"
  const ILLEGAL_HFS_CHARS: string := "/:"
  const ILLEGAL_POSIX_CHARS: string := "/"
  const MAX_LEN: nat := 255

  datatype Rules = Windows | Hfs | Fat | Posix | Universal {
    predicate IsIllegalChar(c: char) {
      || IsControl(c)
      || match this
         case Windows => c in ILLEGAL_WINDOWS_CHARS
         case Fat => c in ILLEGAL_WINDOWS_CHARS
         case Hfs => c in ILLEGAL_HFS_CHARS
         case Posix => c in ILLEGAL_POSIX_CHARS
         case Universal => c in ILLEGAL_WINDOWS_CHARS || c in ILLEGAL_HFS_CHARS
    }

    /** Whether reserved device names and trailing dots and spaces matter. */
    predicate IsWindowsLike() {
      Windows? || Universal?
    }
  }

  datatype Settings = Settings(replacement: string, placeholder: string)

  const DEFAULTS: Settings := Settings("_", "untitled")

  /** The Unicode category Cc. */
  predicate IsControl(c: char) {
    c as int < 0x20 || 0x7F <= c as int < 0xA0
  }

  predicate IsRunChar(c: char) {
    c == '.' || c == ' '
  }

  predicate IsRelative(name: string) {
    name == "." || name == ".."
  }

  /** The part before the first dot. */
  function Stem(name: string): (stem: string)
    ensures stem <= name && '.' !in stem
    ensures |stem| < |name| ==> name[|stem|] == '.'
  {
    name[..Find(name, '.')]
  }

  function Lower(c: char): char {
    if 'A' <= c <= 'Z' then c + 32 as char else c
  }

  /** The device names reserved by Windows, in lower case. */
  predicate IsDeviceName(s: string) {
    || s == "con" || s == "prn" || s == "aux" || s == "nul"
    || (|s| == 4 && (s[..3] == "com" || s[..3] == "lpt") && '1' <= s[3] <= '9')
  }

  function LowerCase(s: string): (lower: string)
    ensures |lower| == |s| && forall i :: 0 <= i < |s| ==> lower[i] == Lower(s[i])
  {
    seq(|s|, i requires 0 <= i < |s| => Lower(s[i]))
  }

  function ReservedPrefix(name: string): (reserved: Option<string>)
    ensures reserved.Some? ==> |reserved.value| == |Stem(name)|
  {
    if IsDeviceName(LowerCase(Stem(name))) then Some(LowerCase(Stem(name))) else None
  }

  predicate EndsInRun(name: string) {
    name != [] && IsRunChar(name[|name| - 1])
  }

  predicate HasIllegal(name: string, rules: Rules) {
    exists i :: 0 <= i < |name| && rules.IsIllegalChar(name[i])
  }

  /** Whether a name may be written as it is. */
  predicate IsValid(name: string, rules: Rules) {
    && name != [] && ByteLength(name) <= MAX_LEN && !IsRelative(name)
    && !HasIllegal(name, rules)
    && !(rules.IsWindowsLike() && (EndsInRun(name) || ReservedPrefix(name).Some?))
  }

  // ---- the rewriting, pass by pass ----

  function Replaced(name: string, rules: Rules, replacement: string): string {
    if name == [] then []
    else
      var last := name[|name| - 1];
      Replaced(name[..|name| - 1], rules, replacement) + (if rules.IsIllegalChar(last) then replacement else [last])
  }

  function Trimmed(name: string): (trimmed: string)
    ensures trimmed <= name && !EndsInRun(trimmed)
    ensures trimmed == name <==> !EndsInRun(name)
  {
    if EndsInRun(name) then Trimmed(name[..|name| - 1]) else name
  }

  function Collapsed(name: string, replacement: string): string {
    if EndsInRun(name) then Trimmed(name) + replacement else name
  }

  function Unreserved(name: string, replacement: string): string {
    match ReservedPrefix(name)
    case None => name
    case Some(reserved) => replacement + name[|reserved|..]
  }

  function Guarded(name: string, rules: Rules, replacement: string): string {
    if rules.IsWindowsLike() then Unreserved(Collapsed(name, replacement), replacement) else name
  }

  /** A cut right after a dot or space leaves a run that was not there before. */
  function Shortened(name: string, rules: Rules, replacement: string): string {
    var cut := Longest(name, MAX_LEN);
    if rules.IsWindowsLike() then Longest(Collapsed(cut, replacement), MAX_LEN) else cut
  }

  /** What is left before the final check for an unusable name. */
  function Rewritten(name: string, rules: Rules, replacement: string): string {
    Shortened(Guarded(Replaced(name, rules, replacement), rules, replacement), rules, replacement)
  }

  function Sanitized(name: string, rules: Rules, settings: Settings): string {
    var result := Rewritten(name, rules, settings.replacement);
    if result == [] || IsRelative(result) then Longest(settings.placeholder, MAX_LEN) else result
  }

  // ---- the rewriting as it is done: in place, on a growing string ----

  /** Replaces a trailing run of dots and spaces by one replacement. */
  method CollapseTrailingRun(result: Text, replacement: string)
    modifies result
    ensures result.chars == Collapsed(old(result.chars), replacement)
  {
    var trimmed := result.chars;
    while EndsInRun(trimmed)
      invariant trimmed <= result.chars && Trimmed(trimmed) == Trimmed(result.chars)
      decreases |trimmed|
    {
      trimmed := trimmed[..|trimmed| - 1];
    }
    if ByteLength(trimmed) != ByteLength(result.chars) {
      PrefixIsLongest(result.chars, |trimmed|);
      assert trimmed == result.chars[..|trimmed|];
      BoundaryEndsCharacters(result.chars, ByteLength(trimmed));
      result.Truncate(ByteLength(trimmed));
      result.PushStr(replacement);
    } else {
      SameLengthPrefix(trimmed, result.chars);
    }
  }

  method ReplaceIllegal(name: string, rules: Rules, replacement: string) returns (result: Text)
    ensures fresh(result)
    ensures result.chars == Replaced(name, rules, replacement)
  {
    result := new Text([]);
    for i := 0 to |name|
      invariant fresh(result) && result.chars == Replaced(name[..i], rules, replacement)
    {
      assert name[..i + 1][..i] == name[..i];
      if rules.IsIllegalChar(name[i]) {
        result.PushStr(replacement);
      } else {
        result.Push(name[i]);
      }
    }
    assert name[..|name|] == name;
  }

  method GuardReserved(result: Text, rules: Rules, replacement: string)
    modifies result
    ensures result.chars == Guarded(old(result.chars), rules, replacement)
  {
    if rules.IsWindowsLike() {
      CollapseTrailingRun(result, replacement);
      var reserved := ReservedPrefix(result.chars);
      if reserved.Some? {
        result.chars := replacement + result.chars[|reserved.value|..];
      }
    }
  }

  method Shorten(result: Text, rules: Rules, replacement: string)
    modifies result
    ensures result.chars == Shortened(old(result.chars), rules, replacement)
  {
    result.TruncateBytes(MAX_LEN);
    if rules.IsWindowsLike() {
      CollapseTrailingRun(result, replacement);
      result.TruncateBytes(MAX_LEN);
    }
  }

  method SanitizeWith(name: string, rules: Rules, settings: Settings) returns (result: Text)
    ensures fresh(result)
    ensures result.chars == Sanitized(name, rules, settings)
  {
    result := ReplaceIllegal(name, rules, settings.replacement);
    GuardReserved(result, rules, settings.replacement);
    Shorten(result, rules, settings.replacement);
    ghost var rewritten := Rewritten(name, rules, settings.replacement);
    assert result.chars == rewritten;
    if result.chars == [] || IsRelative(result.chars) {
      result := new Text(settings.placeholder);
      result.TruncateBytes(MAX_LEN);
    }
  }

  lemma {:induction false} PrefixIsLongest(text: string, k: nat)
    requires k <= |text|
    ensures Longest(text, ByteLength(text[..k])) == text[..k]
    ensures ByteLength(text[..k]) <= ByteLength(text)
  {
    var cut := Longest(text, ByteLength(text[..k]));
    assert cut == text[..|cut|];
    BytesOfPrefix(text, k);
    if |cut| < k {
      LongestIsGreatest(text, ByteLength(text[..k]), k);
    } else {
      BytesOfPrefix(cut, k);
      assert cut[..k] == text[..k];
      ByteLengthBounds(cut[k..]);
    }
  }

  lemma {:induction false} SameLengthPrefix(a: string, b: string)
    requires a <= b && ByteLength(a) == ByteLength(b)
    ensures a == b
  {
    BytesOfPrefix(b, |a|);
    assert b[..|a|] == a && b == a + b[|a|..];
    ByteLengthBounds(b[|a|..]);
  }

  // ---- no illegal character is left ----

  lemma {:induction false} ReplacementIsLegal(rules: Rules)
    ensures !rules.IsIllegalChar('_')
  {
  }

  lemma {:induction false} ReplacedIsLegal(name: string, rules: Rules)
    ensures !HasIllegal(Replaced(name, rules, "_"), rules)
  {
    if name != [] {
      ReplacedIsLegal(name[..|name| - 1], rules);
      ReplacementIsLegal(rules);
    }
  }

  lemma {:induction false} PrefixIsLegal(part: string, name: string, rules: Rules)
    requires part <= name && !HasIllegal(name, rules)
    ensures !HasIllegal(part, rules)
  {
    forall i | 0 <= i < |part| ensures !rules.IsIllegalChar(part[i]) {
      assert part[i] == name[i];
    }
  }

  lemma {:induction false} CollapsedIsLegal(name: string, rules: Rules)
    requires !HasIllegal(name, rules)
    ensures !HasIllegal(Collapsed(name, "_"), rules)
  {
    PrefixIsLegal(Trimmed(name), name, rules);
    ReplacementIsLegal(rules);
  }

  lemma {:induction false} UnreservedIsLegal(name: string, rules: Rules)
    requires !HasIllegal(name, rules)
    ensures !HasIllegal(Unreserved(name, "_"), rules)
  {
    ReplacementIsLegal(rules);
  }

  lemma {:induction false} ShortenedIsLegal(name: string, rules: Rules)
    requires !HasIllegal(name, rules)
    ensures !HasIllegal(Shortened(name, rules, "_"), rules)
  {
    var cut := Longest(name, MAX_LEN);
    PrefixIsLegal(cut, name, rules);
    CollapsedIsLegal(cut, rules);
    PrefixIsLegal(Longest(Collapsed(cut, "_"), MAX_LEN), Collapsed(cut, "_"), rules);
  }

  lemma {:induction false} RewrittenIsLegal(name: string, rules: Rules)
    ensures !HasIllegal(Rewritten(name, rules, "_"), rules)
  {
    var legal := Replaced(name, rules, "_");
    ReplacedIsLegal(name, rules);
    CollapsedIsLegal(legal, rules);
    UnreservedIsLegal(Collapsed(legal, "_"), rules);
    ShortenedIsLegal(Guarded(legal, rules, "_"), rules);
  }

  // ---- no reserved stem is left, and cutting does not bring one back ----

  lemma {:induction false} DeviceNameShape(stem: string)
    requires IsDeviceName(LowerCase(stem))
    ensures |stem| <= 4 && '_' !in stem
  {
  }

  /** The stem is the one dotless part that a dot, or the end, follows. */
  lemma {:induction false} StemIs(name: string, stem: string)
    requires stem <= name && '.' !in stem
    requires |stem| < |name| ==> name[|stem|] == '.'
    ensures Stem(name) == stem
  {
    assert name[..|stem|] == stem;
    FindIs(name, '.', |stem|);
  }

  lemma {:induction false} StemOfPrefix(part: string, name: string)
    requires part <= name
    ensures Stem(part) == part || Stem(part) == Stem(name)
  {
    if |Stem(part)| < |part| {
      assert part[|Stem(part)|] == name[|Stem(part)|];
      StemIs(name, Stem(part));
    }
  }

  lemma {:induction false} UnreservedHasNoReserved(name: string)
    ensures ReservedPrefix(Unreserved(name, "_")).None?
  {
    if ReservedPrefix(name).Some? {
      var rest := name[|Stem(name)|..];
      assert Unreserved(name, "_") == "_" + rest;
      StemIs("_" + rest, "_");
      if ReservedPrefix("_" + rest).Some? {
        DeviceNameShape("_");
      }
    }
  }

  lemma {:induction false} CutHasNoReserved(name: string)
    requires ReservedPrefix(name).None?
    ensures ReservedPrefix(Longest(name, MAX_LEN)).None?
  {
    var cut := Longest(name, MAX_LEN);
    StemOfPrefix(cut, name);
    if cut != name {
      LongestIsGreatest(name, MAX_LEN, |cut| + 1);
      ByteLengthBounds(name[..|cut| + 1]);
      if ReservedPrefix(cut).Some? {
        DeviceNameShape(Stem(cut));
      }
    }
  }

  lemma {:induction false} CollapseHasNoReserved(name: string)
    requires ReservedPrefix(name).None?
    ensures ReservedPrefix(Collapsed(name, "_")).None?
  {
    if EndsInRun(name) {
      var kept := Trimmed(name);
      var result := kept + "_";
      assert Collapsed(name, "_") == result;
      StemOfPrefix(kept, name);
      if |Stem(kept)| < |kept| {
        StemIs(result, Stem(kept));
      } else {
        assert Stem(kept) == kept;
        assert result[|kept|] == '_';
        StemIs(result, result);
        if ReservedPrefix(result).Some? {
          DeviceNameShape(result);
        }
      }
    }
  }

  lemma {:induction false} CollapsedFits(name: string, max: nat)
    requires ByteLength(name) <= max
    ensures ByteLength(Collapsed(name, "_")) <= max
  {
    if EndsInRun(name) {
      var kept := Trimmed(name);
      BytesOfPrefix(name, |kept|);
      assert name[..|kept|] == kept;
      ByteLengthBounds(name[|kept|..]);
      BytesOfSnoc(kept, '_');
    }
  }

  lemma {:induction false} ShortenedIsSafe(name: string, rules: Rules)
    requires rules.IsWindowsLike() && ReservedPrefix(name).None?
    ensures !EndsInRun(Shortened(name, rules, "_")) && ReservedPrefix(Shortened(name, rules, "_")).None?
  {
    var cut := Longest(name, MAX_LEN);
    CutHasNoReserved(name);
    CollapseHasNoReserved(cut);
    CollapsedFits(cut, MAX_LEN);
  }

  lemma {:induction false} RewrittenIsSafe(name: string, rules: Rules)
    requires rules.IsWindowsLike()
    ensures !EndsInRun(Rewritten(name, rules, "_")) && ReservedPrefix(Rewritten(name, rules, "_")).None?
  {
    var first := Collapsed(Replaced(name, rules, "_"), "_");
    UnreservedHasNoReserved(first);
    ShortenedIsSafe(Unreserved(first, "_"), rules);
  }

  // ---- the main results ----

  lemma {:induction false} PlaceholderIsLegal(rules: Rules)
    ensures !HasIllegal("untitled", rules)
  {
    forall i | 0 <= i < |"untitled"| ensures !rules.IsIllegalChar("untitled"[i]) {
      assert 'a' <= "untitled"[i] <= 'z';
    }
  }

  lemma {:induction false} PlaceholderIsValid(rules: Rules)
    ensures IsValid("untitled", rules) && ByteLength("untitled") <= MAX_LEN
  {
    PlaceholderIsLegal(rules);
    PlaceholderIsUnreserved();
    ByteLengthBounds("untitled");
  }

  lemma {:induction false} PlaceholderIsUnreserved()
    ensures ReservedPrefix("untitled").None?
  {
    StemIs("untitled", "untitled");
    if ReservedPrefix("untitled").Some? {
      DeviceNameShape("untitled");
    }
  }

  /** Whatever the name, the result may be written under the rules. */
  lemma {:induction false} SanitizeIsValid(name: string, rules: Rules)
    ensures IsValid(Sanitized(name, rules, DEFAULTS), rules)
  {
    RewrittenIsLegal(name, rules);
    if rules.IsWindowsLike() {
      RewrittenIsSafe(name, rules);
    }
    PlaceholderIsValid(rules);
    var result := Rewritten(name, rules, "_");
    assert Longest("untitled", MAX_LEN) == "untitled";
    assert ByteLength(result) <= MAX_LEN;
  }

  lemma {:induction false} ReplacedKeepsLegal(name: string, rules: Rules, replacement: string)
    requires !HasIllegal(name, rules)
    ensures Replaced(name, rules, replacement) == name
  {
    if name != [] {
      PrefixIsLegal(name[..|name| - 1], name, rules);
      ReplacedKeepsLegal(name[..|name| - 1], rules, replacement);
    }
  }

  lemma {:induction false} ShortenedKeepsValid(name: string, rules: Rules)
    requires IsValid(name, rules)
    ensures Guarded(name, rules, "_") == name && Shortened(name, rules, "_") == name
  {
  }

  /** A name is left alone exactly when it was legal already, ... */
  lemma {:induction false} SanitizeFixesValid(name: string, rules: Rules)
    ensures IsValid(name, rules) <==> Sanitized(name, rules, DEFAULTS) == name
  {
    if IsValid(name, rules) {
      ReplacedKeepsLegal(name, rules, "_");
      ShortenedKeepsValid(name, rules);
    } else {
      SanitizeIsValid(name, rules);
    }
  }

  /** ... so a second pass changes nothing. */
  lemma {:induction false} SanitizeIsIdempotent(name: string, rules: Rules)
    ensures Sanitized(Sanitized(name, rules, DEFAULTS), rules, DEFAULTS) == Sanitized(name, rules, DEFAULTS)
  {
    SanitizeIsValid(name, rules);
    SanitizeFixesValid(Sanitized(name, rules, DEFAULTS), rules);
  }

  // ---- paths ----

  predicate IsSeparator(c: char) {
    c == '/' || c == '\\'
  }

  predicate IsUsableSegment(segment: string) {
    segment != [] && !IsRelative(segment)
  }

  /** The part after the last separator. */
  function LastSegment(path: string): (segment: string)
    ensures |segment| <= |path|
  {
    if path == [] || IsSeparator(path[|path| - 1]) then [] else LastSegment(path[..|path| - 1]) + [path[|path| - 1]]
  }

  /** The last segment, from the right, that names something. */
  function LastName(path: string): string
    decreases |path|
  {
    var segment := LastSegment(path);
    if IsUsableSegment(segment) then segment
    else if |segment| == |path| then []
    else LastName(path[..|path| - |segment| - 1])
  }

  function SanitizedPath(path: string, rules: Rules): string {
    Sanitized(LastName(path), rules, DEFAULTS)
  }

  predicate IsSegment(s: string) {
    forall i :: 0 <= i < |s| ==> !IsSeparator(s[i])
  }

  lemma {:induction false} LastSegmentIs(before: string, separator: char, segment: string)
    requires IsSeparator(separator) && IsSegment(segment)
    ensures LastSegment(before + [separator] + segment) == segment
  {
    var path := before + [separator] + segment;
    if segment != [] {
      LastSegmentIs(before, separator, segment[..|segment| - 1]);
      assert path[..|path| - 1] == before + [separator] + segment[..|segment| - 1];
    }
  }

  /** Nothing before the last segment matters, when that one is usable, ... */
  lemma {:induction false} LastUsableSegmentWins(directory: string, separator: char, segment: string)
    requires IsSeparator(separator) && IsSegment(segment) && IsUsableSegment(segment)
    ensures LastName(directory + [separator] + segment) == segment
  {
    LastSegmentIs(directory, separator, segment);
  }

  /** ... and separators and relative segments after it are skipped. */
  lemma {:induction false} UnusableSegmentIsSkipped(path: string, separator: char, segment: string)
    requires IsSeparator(separator) && IsSegment(segment) && !IsUsableSegment(segment)
    ensures LastName(path + [separator] + segment) == LastName(path)
  {
    LastSegmentIs(path, separator, segment);
    var whole := path + [separator] + segment;
    assert whole[..|whole| - |segment| - 1] == path;
  }

  /** One component below a directory: it neither names a deeper path nor
      leads out of the directory. */
  predicate IsSegmentOf(name: string) {
    IsUsableSegment(name) && '/' !in name
  }

  /** Without a usable segment the placeholder is used. */
  lemma {:induction false} PathGivesValidName(path: string, rules: Rules)
    ensures IsValid(SanitizedPath(path, rules), rules) && IsSegmentOf(SanitizedPath(path, rules))
  {
    SanitizeIsValid(LastName(path), rules);
    assert '/' in ILLEGAL_WINDOWS_CHARS && '/' in ILLEGAL_HFS_CHARS && '/' in ILLEGAL_POSIX_CHARS;
  }
}

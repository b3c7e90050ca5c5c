/**
 * Application configuration: the report-name sanitiser and the integer and
 * boolean defaults of the application's configuration record.
 */
module Config {
  import opened Wrappers

  /** The characters reserved in file names on common platforms. */
  const InvalidChars: string := "<>:\"/\\|?*"

  /** The name used when nothing usable is left of the requested one. */
  const FallbackName: string := "reporte"

  predicate IsInvalid(ch: char) {
    ch in InvalidChars
  }

  /** The characters Python's `str.strip()` removes (Unicode whitespace). */
  predicate IsSpace(ch: char) {
    || '\t' <= ch <= '\r'
    || '\U{1C}' <= ch <= ' '
    || ch == '\U{85}' || ch == '\U{A0}' || ch == '\U{1680}'
    || '\U{2000}' <= ch <= '\U{200A}'
    || ch == '\U{2028}' || ch == '\U{2029}' || ch == '\U{202F}' || ch == '\U{205F}' || ch == '\U{3000}'
  }

  /** No reserved character is whitespace, and neither is their replacement '_'. */
  lemma SpaceIsValid(ch: char)
    ensures IsSpace(ch) ==> !IsInvalid(ch)
    ensures !IsSpace('_')
  {
  }

  /** Every reserved character replaced one-for-one by '_', every other character kept in place. */
  function ReplaceInvalid(s: string): (r: string)
    ensures |r| == |s|
    ensures forall i :: 0 <= i < |s| ==> r[i] == (if IsInvalid(s[i]) then '_' else s[i])
  {
    if s == [] then [] else [if IsInvalid(s[0]) then '_' else s[0]] + ReplaceInvalid(s[1..])
  }

  /** The index of the first non-whitespace character at or after i (|s| if there is none). */
  function SkipLeading(s: string, i: nat): (j: nat)
    requires i <= |s|
    ensures i <= j <= |s|
    ensures forall k :: i <= k < j ==> IsSpace(s[k])
    ensures j == |s| || !IsSpace(s[j])
    decreases |s| - i
  {
    if i < |s| && IsSpace(s[i]) then SkipLeading(s, i + 1) else i
  }

  /** The end of s[lo..hi] once its trailing whitespace is cut off. */
  function SkipTrailing(s: string, lo: nat, hi: nat): (e: nat)
    requires lo <= hi <= |s|
    ensures lo <= e <= hi
    ensures forall k :: e <= k < hi ==> IsSpace(s[k])
    ensures e == lo || !IsSpace(s[e - 1])
    decreases hi
  {
    if lo < hi && IsSpace(s[hi - 1]) then SkipTrailing(s, lo, hi - 1) else hi
  }

  /** Where the stripped string starts: the number of leading whitespace characters. */
  function StripStart(s: string): nat
    ensures StripStart(s) <= |s|
  {
    SkipLeading(s, 0)
  }

  /** Where the stripped string ends. */
  function StripEnd(s: string): nat
    ensures StripStart(s) <= StripEnd(s) <= |s|
  {
    SkipTrailing(s, StripStart(s), |s|)
  }

  /** Python's `str.strip()`: the window of s between its leading and its trailing whitespace. */
  function Strip(s: string): string {
    s[StripStart(s)..StripEnd(s)]
  }

  /**
   * The report-name sanitiser: reserved characters become '_', surrounding
   * whitespace is stripped, and an empty result falls back to "reporte".
   */
  function SanitizeFilename(name: string): string {
    var cleaned := Strip(ReplaceInvalid(name));
    if cleaned == [] then FallbackName else cleaned
  }

  /** A file name that needs no sanitising. */
  predicate IsClean(s: string) {
    && s != []
    && (forall i :: 0 <= i < |s| ==> !IsInvalid(s[i]))
    && !IsSpace(s[0]) && !IsSpace(s[|s| - 1])
  }

  /** Stripping changes nothing in a string without surrounding whitespace. */
  lemma StripKeepsStripped(s: string)
    requires s != [] && !IsSpace(s[0]) && !IsSpace(s[|s| - 1])
    ensures Strip(s) == s
  {
    assert StripStart(s) == 0;
    assert StripEnd(s) == |s|;
  }

  /**
   * Only whitespace is cut off, and what is kept starts and ends with a
   * character that is not whitespace.
   */
  lemma StripIsWindow(s: string)
    ensures var i, e := StripStart(s), StripEnd(s);
      && Strip(s) == s[i..e]
      && (forall k :: 0 <= k < i ==> IsSpace(s[k]))
      && (forall k :: e <= k < |s| ==> IsSpace(s[k]))
      && (i < e ==> !IsSpace(s[i]) && !IsSpace(s[e - 1]))
  {
    var i, e := StripStart(s), StripEnd(s);
    if i < e {
      assert i < |s|;
    }
  }

  /** Stripping leaves nothing exactly when the string is all whitespace. */
  lemma StripEmptyIffAllSpace(s: string)
    ensures Strip(s) == [] <==> forall i :: 0 <= i < |s| ==> IsSpace(s[i])
  {
    var i, e := StripStart(s), StripEnd(s);
    if i < |s| {
      assert !IsSpace(s[i]);
      if e == i {
        assert false;
      }
      assert |Strip(s)| == e - i > 0;
    }
  }

  /** A non-empty strip of a string without reserved characters needs no sanitising. */
  lemma StripIsClean(s: string)
    requires forall i :: 0 <= i < |s| ==> !IsInvalid(s[i])
    requires Strip(s) != []
    ensures IsClean(Strip(s))
  {
    StripIsWindow(s);
    var i, e := StripStart(s), StripEnd(s);
    forall k | 0 <= k < e - i ensures !IsInvalid(Strip(s)[k]) {
      assert Strip(s)[k] == s[i + k];
    }
    assert Strip(s)[0] == s[i] && Strip(s)[e - i - 1] == s[e - 1];
  }

  /** The fallback name needs no sanitising. */
  lemma FallbackIsClean()
    ensures IsClean(FallbackName)
  {
    var f := FallbackName;
    assert forall i :: 0 <= i < |f| ==> 'a' <= f[i] <= 'z';
  }

  /**
   * The sanitised name is never empty, contains no reserved character and
   * has no leading or trailing whitespace.
   */
  lemma SanitizeIsClean(name: string)
    ensures IsClean(SanitizeFilename(name))
  {
    var replaced := ReplaceInvalid(name);
    if Strip(replaced) != [] {
      StripIsClean(replaced);
    } else {
      FallbackIsClean();
    }
  }

  /** A name made only of whitespace (the empty name included) falls back to "reporte". */
  lemma SanitizeFallback(name: string)
    requires forall i :: 0 <= i < |name| ==> IsSpace(name[i])
    ensures SanitizeFilename(name) == FallbackName
  {
    var replaced := ReplaceInvalid(name);
    forall i | 0 <= i < |replaced| ensures IsSpace(replaced[i]) {
      SpaceIsValid(name[i]);
    }
    StripEmptyIffAllSpace(replaced);
  }

  lemma StripNonEmpty(s: string, i: int)
    requires 0 <= i < |s| && !IsSpace(s[i])
    ensures Strip(s) != []
  {
    StripEmptyIffAllSpace(s);
  }

  lemma ReplacedKeepsNonSpace(name: string, i: int)
    requires 0 <= i < |name| && !IsSpace(name[i])
    ensures !IsSpace(ReplaceInvalid(name)[i])
  {
    SpaceIsValid(name[i]);
    if IsInvalid(name[i]) {
      assert ReplaceInvalid(name)[i] == '_';
    } else {
      assert ReplaceInvalid(name)[i] == name[i];
    }
  }

  /**
   * A name with a non-whitespace character does not fall back: the result is
   * its one-for-one replacement with the surrounding whitespace cut off.
   */
  lemma SanitizeKeepsContent(name: string, i: int)
    requires 0 <= i < |name| && !IsSpace(name[i])
    ensures SanitizeFilename(name) == Strip(ReplaceInvalid(name)) != []
  {
    ReplacedKeepsNonSpace(name, i);
    StripNonEmpty(ReplaceInvalid(name), i);
  }

  /** A clean name is left as it is. */
  lemma SanitizeKeepsClean(name: string)
    requires IsClean(name)
    ensures SanitizeFilename(name) == name
  {
    assert ReplaceInvalid(name) == name;
    StripKeepsStripped(name);
  }

  /** Sanitising twice is the same as sanitising once. */
  lemma SanitizeIdempotent(name: string)
    ensures SanitizeFilename(SanitizeFilename(name)) == SanitizeFilename(name)
  {
    SanitizeIsClean(name);
    SanitizeKeepsClean(SanitizeFilename(name));
  }

  /** The integer, boolean and string fields of the application configuration. */
  datatype AppConfig = AppConfig(
    modelName: string,
    device: Option<string>,
    lineOrientation: string,
    invertDirection: bool,
    capacityCar: int,
    capacityMoto: int,
    initialInventoryCar: int,
    initialInventoryMoto: int,
    enableCsv: bool,
    csvDir: string,
    csvName: Option<string>,
    enableMlflow: bool,
    drawHud: bool)

  /** The configuration every field of which has its default. */
  function DefaultAppConfig(): AppConfig {
    AppConfig(
      modelName := "yolo11n.pt",
      device := None,
      lineOrientation := "vertical",
      invertDirection := false,
      capacityCar := 50,
      capacityMoto := 50,
      initialInventoryCar := 0,
      initialInventoryMoto := 0,
      enableCsv := true,
      csvDir := "resultados",
      csvName := Some("Registro"),
      enableMlflow := false,
      drawHud := true)
  }

  /**
   * The defaults: capacity 50 for each class, initial inventory 0 for each
   * class (so within capacity), direction not inverted.
   */
  lemma DefaultAppConfigValues()
    ensures var c := DefaultAppConfig();
      && c.capacityCar == 50 && c.capacityMoto == 50
      && c.initialInventoryCar == 0 && c.initialInventoryMoto == 0
      && 0 <= c.initialInventoryCar <= c.capacityCar && 0 <= c.initialInventoryMoto <= c.capacityMoto
      && !c.invertDirection
      && c.lineOrientation == "vertical"
  {
  }
}

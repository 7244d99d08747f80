/**
 * Inline-button payloads: the `platform_<name>` buttons of `/start`, the
 * `action|key` buttons of the format prompt, and the prefix filters that
 * route a pressed button to `handle_platform` or `handle_download`.
 */
module Callbacks {
  import opened Wrappers
  import opened Text

  datatype Button = Button(text: string, callbackData: string)

  // ----- pending-request keys --------------------------------------------

  predicate IsHexDigit(c: char)
  {
    '0' <= c <= '9' || 'a' <= c <= 'f'
  }

  /** The text form of `uuid.uuid4()`: 32 lower-case hex digits in groups 8-4-4-4-12. */
  predicate IsUuid(k: string)
  {
    |k| == 36 &&
    forall i :: 0 <= i < 36 ==> if i in {8, 13, 18, 23} then k[i] == '-' else IsHexDigit(k[i])
  }

  /** A key never contains the payload separator. */
  lemma UuidHasNoBar(k: string)
    requires IsUuid(k)
    ensures '|' !in k
  {
    forall i | 0 <= i < |k| ensures k[i] != '|' {
      assert i in {8, 13, 18, 23} || IsHexDigit(k[i]);
    }
  }

  // ----- format buttons --------------------------------------------------

  datatype Action = Video480 | Video720 | Audio

  const ActionNames: set<string> := {"video480", "video720", "audio"}

  function Name(a: Action): (n: string)
    ensures n in ActionNames && '|' !in n
  {
    match a
    case Video480 => "video480"
    case Video720 => "video720"
    case Audio => "audio"
  }

  /** `f"{action}|{key}"`. */
  function Payload(a: Action, key: string): string
  {
    Name(a) + "|" + key
  }

  /** The keyboard under the format prompt: 480p and 720p on one row, mp3 below. */
  function FormatKeyboard(key: string): (rows: seq<seq<Button>>)
    ensures |rows| == 2 && |rows[0]| == 2 && |rows[1]| == 1
    ensures rows[0][0].callbackData == Payload(Video480, key)
    ensures rows[0][1].callbackData == Payload(Video720, key)
    ensures rows[1][0].callbackData == Payload(Audio, key)
  {
    [[Button("🎥 480p", Payload(Video480, key)), Button("🎥 720p", Payload(Video720, key))],
     [Button("🎧 mp3", Payload(Audio, key))]]
  }

  /** `action, key = data.split("|")`: defined only when there are exactly two pieces. */
  function SplitPayload(data: string): (r: Option<(string, string)>)
    ensures r.Some? ==> data == r.value.0 + "|" + r.value.1
    ensures r.Some? ==> '|' !in r.value.0 && '|' !in r.value.1
  {
    var parts := Split(data, '|');
    JoinSplit(data, '|');
    if |parts| == 2 then
      assert Join(parts, '|') == parts[0] + "|" + parts[1];
      Some((parts[0], parts[1]))
    else None
  }

  /** Any two names without '|', joined by one '|', unpack back into those two names. */
  lemma SplitPair(a: string, b: string)
    requires '|' !in a && '|' !in b
    ensures SplitPayload(a + "|" + b) == Some((a, b))
  {
    SplitAfterField(a, '|', b);
    SplitWithoutSeparator(b, '|');
  }

  /** A payload built for a key without '|' splits back into its action and that key. */
  lemma PayloadRoundTrip(a: Action, key: string)
    requires '|' !in key
    ensures SplitPayload(Payload(a, key)) == Some((Name(a), key))
  {
    SplitAfterField(Name(a), '|', key);
    SplitWithoutSeparator(key, '|');
  }

  // ----- routing ---------------------------------------------------------

  datatype Route = ToPlatform | ToDownload | Unrouted

  const PlatformPrefix: string := "platform_"

  /** The callback filters, in the order they are registered. */
  function RouteCallback(data: string): Route
  {
    if StartsWith(data, PlatformPrefix) then ToPlatform
    else if StartsWith(data, "video480|") || StartsWith(data, "video720|") || StartsWith(data, "audio|")
    then ToDownload
    else Unrouted
  }

  /** Every format button reaches `handle_download`. */
  lemma FormatButtonsRouted(a: Action, key: string)
    ensures RouteCallback(Payload(a, key)) == ToDownload
  {
    var p := Payload(a, key);
    assert p[..|Name(a)| + 1] == Name(a) + "|";
    assert p[0] != 'p';
  }

  /** A download payload that splits names one of the three actions. */
  lemma RoutedAction(data: string)
    requires RouteCallback(data) == ToDownload && SplitPayload(data).Some?
    ensures SplitPayload(data).value.0 in ActionNames
  {
    var a := if StartsWith(data, "video480|") then "video480"
             else if StartsWith(data, "video720|") then "video720"
             else "audio";
    assert StartsWith(data, a + "|");
    var rest := data[|a| + 1..];
    assert data == a + "|" + rest;
    SplitAfterField(a, '|', rest);
  }

  // ----- platform buttons ------------------------------------------------

  /** The keyboard `/start` sends, one platform per row. */
  const PlatformKeyboard: seq<seq<Button>> := [
    [Button("📱 iPhone", "platform_ios")],
    [Button("🤖 Android", "platform_android")],
    [Button("💻 ПК", "platform_pc")]
  ]

  /** `data.split("_")[1]`: the text after the first '_' up to the next one. */
  function PlatformOf(data: string): (p: string)
    requires StartsWith(data, PlatformPrefix)
    ensures '_' !in p
    ensures StartsWith(data[|PlatformPrefix|..], p)
    ensures |PlatformPrefix| + |p| == |data| || data[|PlatformPrefix| + |p|] == '_'
  {
    var rest := data[|PlatformPrefix|..];
    assert data == "platform" + "_" + rest;
    SplitAfterField("platform", '_', rest);
    var parts := Split(rest, '_');
    JoinSplit(rest, '_');
    PieceIsPrefix(parts, '_');
    Split(data, '_')[1]
  }

  /** The first piece of a join is a prefix, ended by the separator or the text. */
  lemma PieceIsPrefix(parts: seq<string>, sep: char)
    requires |parts| >= 1
    ensures StartsWith(Join(parts, sep), parts[0])
    ensures |parts[0]| == |Join(parts, sep)| || Join(parts, sep)[|parts[0]|] == sep
  {
    if |parts| > 1 {
      var j := Join(parts, sep);
      assert j == parts[0] + [sep] + Join(parts[1..], sep);
      assert j[..|parts[0]|] == parts[0];
    }
  }

  /** The three platform buttons route to `handle_platform`. */
  lemma PlatformButtonsRouted()
    ensures forall i | 0 <= i < |PlatformKeyboard| ::
      |PlatformKeyboard[i]| == 1 && RouteCallback(PlatformKeyboard[i][0].callbackData) == ToPlatform
  {
  }

  /** The three platform buttons store "ios", "android" and "pc". */
  lemma PlatformNames()
    ensures PlatformOf("platform_ios") == "ios"
    ensures PlatformOf("platform_android") == "android"
    ensures PlatformOf("platform_pc") == "pc"
  {
    PlatformOfSimple("ios");
    assert PlatformPrefix + "ios" == "platform_ios";
    PlatformOfSimple("android");
    assert PlatformPrefix + "android" == "platform_android";
    PlatformOfSimple("pc");
    assert PlatformPrefix + "pc" == "platform_pc";
  }

  /** A platform name without '_' is read back from its payload. */
  lemma PlatformOfSimple(name: string)
    requires '_' !in name
    ensures StartsWith(PlatformPrefix + name, PlatformPrefix)
    ensures PlatformOf(PlatformPrefix + name) == name
  {
    var data := PlatformPrefix + name;
    assert data[..|PlatformPrefix|] == PlatformPrefix;
    assert data[|PlatformPrefix|..] == name;
    assert data == "platform" + "_" + name;
    SplitAfterField("platform", '_', name);
    SplitWithoutSeparator(name, '_');
  }
}

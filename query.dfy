/** Option lookups on the decoded query string, and the display settings
    the application derives from them. */
module Query {

  import opened Optional
  import opened Render

  /** A property of the query object: a decoded `key=value` string, the
      boolean `true` stored for a bare `key`, or the JavaScript values
      `undefined` and `null` the lookup guards against. */
  datatype Value = Text(text: string) | Flag | Undefined | Null

  type QueryObject = map<string, Value>

  /** `queryValue`: the stored value when the key is present and neither
      undefined nor null, otherwise the default. */
  function QueryValue(obj: QueryObject, key: string, defaultVal: Value): (v: Value)
    ensures key !in obj ==> v == defaultVal
    ensures key in obj && (obj[key] == Undefined || obj[key] == Null) ==> v == defaultVal
    ensures key in obj && obj[key] != Undefined && obj[key] != Null ==> v == obj[key]
  {
    if key in obj && obj[key] != Undefined && obj[key] != Null then obj[key] else defaultVal
  }

  /** `queryValueCheckbox`: a present key switches the option on unless its
      value is the text "false" or "0"; otherwise the default decides. */
  function QueryValueCheckbox(obj: QueryObject, key: string, defaultVal: bool): (b: bool)
    ensures defaultVal ==> b
    ensures key !in obj ==> b == defaultVal
    ensures key in obj && obj[key] == Flag ==> b
    ensures key in obj && obj[key] in {Text("false"), Text("0")} ==> b == defaultVal
  {
    (key in obj && obj[key] != Text("false") && obj[key] != Text("0")) || defaultVal
  }

  /** With a defined default, a lookup never yields undefined or null: the
      result is either the default or what the object stores under the key,
      and looking it up again with that result as the default changes nothing. */
  lemma QueryValueDefined(obj: QueryObject, key: string, defaultVal: Value)
    requires defaultVal != Undefined && defaultVal != Null
    ensures var v := QueryValue(obj, key, defaultVal);
            && v != Undefined && v != Null
            && (v == defaultVal || (key in obj && v == obj[key]))
            && QueryValue(obj, key, v) == v
  {
  }

  /** A lookup reads only its own key: storing another key leaves both
      lookups unchanged. */
  lemma LookupsIgnoreOtherKeys(obj: QueryObject, key: string, other: string, w: Value, defaultVal: Value, flagDefault: bool)
    requires other != key
    ensures QueryValue(obj[other := w], key, defaultVal) == QueryValue(obj, key, defaultVal)
    ensures QueryValueCheckbox(obj[other := w], key, flagDefault) == QueryValueCheckbox(obj, key, flagDefault)
  {
    assert key in obj[other := w] <==> key in obj;
    if key in obj {
      assert obj[other := w][key] == obj[key];
    }
  }

  /** The text a lookup gives for a string option: a bare flag is `true`,
      which reads as the text "true"; undefined and null cannot reach here
      because the defaults are texts. */
  function AsText(v: Value): string {
    match v
    case Text(t) => t
    case Flag => "true"
    case Undefined => "undefined"
    case Null => "null"
  }

  const IDLE_MESSAGE := "Touch Screen Tester (WBBMTT)"

  /** The display settings of the constructor. `markSizeScale` and `gridSpan`
      are the query values already converted to numbers. */
  function SettingsFromQuery(obj: QueryObject, markSizeScale: real, gridSpan: real): (cfg: Config)
    ensures cfg.markRadius1 == 22.0 * markSizeScale
    ensures cfg.markRadius2 == 14.0 * markSizeScale
    ensures cfg.mark2Width == 6.0 * markSizeScale
    ensures cfg.gridSpan == gridSpan
    ensures cfg.idleMessage == IDLE_MESSAGE
  {
    Config(
      22.0 * markSizeScale,
      14.0 * markSizeScale,
      6.0 * markSizeScale,
      gridSpan,
      AsText(QueryValue(obj, "backGroundColor", Text("black"))),
      !QueryValueCheckbox(obj, "hideTouchProperties", false),
      QueryValueCheckbox(obj, "showTouchRadius", false),
      QueryValueCheckbox(obj, "showPointerType", false),
      IDLE_MESSAGE)
  }

  /** Without query options the canvas is black, touch properties are
      shown, radius and pointer type are not. */
  lemma DefaultSettings(markSizeScale: real, gridSpan: real)
    ensures var cfg := SettingsFromQuery(map[], markSizeScale, gridSpan);
            && cfg.backGroundColor == "black"
            && cfg.showTouchProperties
            && !cfg.showTouchRadius
            && !cfg.showPointerType
  {
  }

  /** Query keys other than the four display options leave the settings
      unchanged. */
  lemma SettingsIgnoreOtherKeys(obj: QueryObject, other: string, w: Value, markSizeScale: real, gridSpan: real)
    requires other != "backGroundColor" && other != "hideTouchProperties"
    requires other != "showTouchRadius" && other != "showPointerType"
    ensures SettingsFromQuery(obj[other := w], markSizeScale, gridSpan) == SettingsFromQuery(obj, markSizeScale, gridSpan)
  {
    LookupsIgnoreOtherKeys(obj, "backGroundColor", other, w, Text("black"), false);
    LookupsIgnoreOtherKeys(obj, "hideTouchProperties", other, w, Text("black"), false);
    LookupsIgnoreOtherKeys(obj, "showTouchRadius", other, w, Text("black"), false);
    LookupsIgnoreOtherKeys(obj, "showPointerType", other, w, Text("black"), false);
  }

  /** A flag option reads as set exactly when its key is present with a
      value other than "false" and "0". */
  lemma CheckboxOption(obj: QueryObject, key: string)
    ensures QueryValueCheckbox(obj, key, false)
            <==> key in obj && obj[key] != Text("false") && obj[key] != Text("0")
  {
  }
}

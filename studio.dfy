/**
 * The two pure helpers of app.js that feed the generation request and the
 * result panel: the prompt composition in generateImage and getModelName.
 */
module Studio {
  import opened Wrappers

  /** Appended to every prompt sent to the generation service. */
  const QUALITY_SUFFIX: string := ", high quality, detailed"

  /** The style clause inserted for a non-empty style. */
  function StyleClause(style: string): string {
    ", " + style + " style"
  }

  /**
   * The prompt sent to the generation service: the user's prompt, then the
   * style clause when a style is selected, then the quality suffix.
   */
  function ComposePrompt(prompt: string, style: string): (r: string)
    ensures |r| == |prompt| + (if style == "" then 0 else |StyleClause(style)|) + |QUALITY_SUFFIX|
    ensures r[..|prompt|] == prompt
    ensures r[|r| - |QUALITY_SUFFIX|..] == QUALITY_SUFFIX
    ensures style == "" ==> r[|prompt|..|r| - |QUALITY_SUFFIX|] == ""
    ensures style != "" ==> r[|prompt|..|r| - |QUALITY_SUFFIX|] == StyleClause(style)
  {
    var withStyle := if style != "" then prompt + StyleClause(style) else prompt;
    withStyle + QUALITY_SUFFIX
  }

  /**
   * Reads back the style from a composed prompt, given the user's prompt:
   * the reference inverse of ComposePrompt.
   */
  function StyleOf(prompt: string, full: string): Option<string> {
    if |full| < |prompt| + |QUALITY_SUFFIX| || full[..|prompt|] != prompt
       || full[|full| - |QUALITY_SUFFIX|..] != QUALITY_SUFFIX then None
    else
      var middle := full[|prompt|..|full| - |QUALITY_SUFFIX|];
      if middle == [] then Some("")
      else if |middle| > 8 && middle[..2] == ", " && middle[|middle| - 6..] == " style"
      then Some(middle[2..|middle| - 6])
      else None
  }

  /** The composed prompt determines the style: no two styles give the same request. */
  lemma ComposePromptKeepsStyle(prompt: string, style: string)
    ensures StyleOf(prompt, ComposePrompt(prompt, style)) == Some(style)
  {
  }

  lemma ComposePromptInjective(prompt: string, s1: string, s2: string)
    requires ComposePrompt(prompt, s1) == ComposePrompt(prompt, s2)
    ensures s1 == s2
  {
    ComposePromptKeepsStyle(prompt, s1);
    ComposePromptKeepsStyle(prompt, s2);
  }

  /** The display names of the known model ids (the `models` object literal). */
  const MODEL_NAMES: map<string, string> := map["flux" := "Flux Schnell", "zimage" := "Z-Image Turbo"]

  /**
   * Property names every JavaScript object literal inherits from
   * Object.prototype; each one reads back as a function or an object.
   */
  const OBJECT_PROTOTYPE_MEMBERS: set<string> := {
    "constructor", "hasOwnProperty", "isPrototypeOf", "propertyIsEnumerable",
    "toLocaleString", "toString", "valueOf", "__proto__",
    "__defineGetter__", "__defineSetter__", "__lookupGetter__", "__lookupSetter__"}

  /** A JavaScript value returned by getModelName. */
  datatype JsValue = Text(s: string) | PrototypeMember(name: string)

  /**
   * getModelName as written: `models[model] || model` reads through the
   * prototype chain, so an inherited member (always truthy) wins over the id.
   */
  function GetModelNameAsWritten(model: string): (r: JsValue)
    ensures model in MODEL_NAMES ==> r == Text(MODEL_NAMES[model])
    ensures model !in MODEL_NAMES && model in OBJECT_PROTOTYPE_MEMBERS ==> r.PrototypeMember?
    ensures model !in MODEL_NAMES && model !in OBJECT_PROTOTYPE_MEMBERS ==> r == Text(model)
  {
    if model in MODEL_NAMES then Text(MODEL_NAMES[model])
    else if model in OBJECT_PROTOTYPE_MEMBERS then PrototypeMember(model)
    else Text(model)
  }

  /** The id "toString" is shown as a function, not as the id itself. */
  lemma GetModelNameAsWrittenLeaksPrototype()
    ensures GetModelNameAsWritten("toString") != Text("toString")
  {
  }

  /**
   * getModelName as intended: the display name of a known id, and any other
   * id unchanged (an own-property lookup).
   */
  function ModelName(model: string): (r: string)
    ensures model in MODEL_NAMES ==> r == MODEL_NAMES[model]
    ensures model !in MODEL_NAMES ==> r == model
    ensures model != "" ==> r != ""
  {
    if model in MODEL_NAMES then MODEL_NAMES[model] else model
  }

  /** The two known ids and their display names. */
  lemma ModelNameKnownIds()
    ensures ModelName("flux") == "Flux Schnell"
    ensures ModelName("zimage") == "Z-Image Turbo"
  {
  }

  /** Outside the inherited member names, the code as written returns what ModelName does. */
  lemma GetModelNameAgrees(model: string)
    requires model !in OBJECT_PROTOTYPE_MEMBERS
    ensures GetModelNameAsWritten(model) == Text(ModelName(model))
  {
  }
}

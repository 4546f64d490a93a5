/**
 * How the service's outputs meet the panel's decisions: what the panel can show for a result that
 * went through the override pass, and for an AI image produced by the image generator.
 */
module Composition {
  import opened Wrappers
  import opened Types
  import opened Text
  import opened GeminiService
  import opened IntelligencePanel

  /**
   * The image generator never hands back the quota sentinel, so a panel fed only by it never shows
   * the quota notice: without a reference image it shows the generated picture or the spinner.
   */
  lemma GeneratedImageNeverShowsQuotaNotice(result: RecognitionResult, key: string, prompt: string, reply: VisualReply)
    ensures MediaContent(result, GenerateAIVisual(key, prompt, reply).image) != QuotaNotice
  {
  }

  /** A result rewritten by an override always shows that override's fixed image, whatever the AI image. */
  lemma OverriddenResultShowsReferenceImage(result: RecognitionResult, aiImage: Option<string>)
    requires Occurs("white house", NameKey(result)) || Occurs("iad13", NameKey(result))
      || Occurs("data center", NameKey(result))
    ensures MediaContent(ApplyOverrides(result), aiImage) ==
      Picture(if Occurs("white house", NameKey(result)) then WhiteHouseImage else DataCenterImage)
  {
  }
}

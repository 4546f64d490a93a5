/**
 * The shapes the recognition service and the panel exchange. The record's declaration lives in a
 * types file that is not part of this model; its fields are the ones both core files read and write.
 */
module Types {
  import opened Wrappers

  /** A tap position, in percent of the viewport's width (`x`) and height (`y`). */
  datatype ClickPosition = ClickPosition(x: real, y: real)

  /**
   * A parsed recognition answer. `name` may be missing from the parsed JSON; `referenceImage`
   * and `weatherFacts` are only present when the override pass (or the JSON itself) sets them.
   */
  datatype RecognitionResult = RecognitionResult(
    name: Option<string>,
    category: string,
    description: string,
    funFact: string,
    visualPrompt: string,
    confidence: real,
    referenceImage: Option<string>,
    weatherFacts: Option<string>)

  /** The value the panel treats as "image generation ran out of quota" instead of an image source. */
  const QuotaSentinel: string := "QUOTA_EXCEEDED"

  /** JavaScript truthiness of a string that may be absent: present and non-empty. */
  predicate Truthy(s: Option<string>) {
    s.Some? && s.value != ""
  }

  /** `s || ""`: the string, or the empty string when it is absent. */
  function OrEmpty(s: Option<string>): (r: string)
    ensures Truthy(s) ==> r == s.value
    ensures !Truthy(s) ==> r == ""
  {
    s.GetOr("")
  }
}

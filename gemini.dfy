/**
 * The recognition service's own logic around its three model calls: the guards that give up
 * without a key or without an answer, the tap coordinates written into the recognition prompt, the
 * name-keyed override pass, the PCM16 decoding of narration audio, and the data URL built from a
 * generated image. Each model call is abstracted as the reply it produced, passed in as an input.
 */
module GeminiService {
  import opened Wrappers
  import opened Types
  import opened Text

  const WhiteHouseName: string := "White House"
  const WhiteHouseImage: string :=
    "https://images.unsplash.com/photo-1501466044931-62695aada8e9?q=80&w=1200&auto=format&fit=crop"
  const DataCenterName: string := "IAD13 Data Center"
  const DataCenterImage: string :=
    "https://images.unsplash.com/photo-1558494949-ef010cbdcc51?q=80&w=1200&auto=format&fit=crop"
  /** The fixed weather record attached to the data-centre override (its degree sign is stored mis-encoded, as `Â°`). */
  const DataCenterWeather: string :=
    "Blizzard of 2016 (\"Jonas\"): Heavy snowfall recorded for the area, burying Ashburn under 36 inches.\n\n"
    + "Extreme Heat 2024: Temperatures soared to 104\U{00C2}\U{00B0}F."

  // ---------------------------------------------------------------------------------------------
  // Override pass

  /** The lower-cased name the override pass matches against; a missing name counts as "". */
  function NameKey(r: RecognitionResult): string {
    ToLower(OrEmpty(r.name))
  }

  /**
   * Rewrites a recognised name that mentions the White House or the IAD13 data centre (in any
   * letter case) into its canonical record; the White House test runs first and wins.
   */
  function ApplyOverrides(r: RecognitionResult): (o: RecognitionResult)
    ensures o.category == r.category && o.description == r.description && o.funFact == r.funFact
    ensures o.visualPrompt == r.visualPrompt && o.confidence == r.confidence
    ensures Occurs("white house", NameKey(r)) ==>
      && o.name == Some(WhiteHouseName) && o.referenceImage == Some(WhiteHouseImage)
      && o.weatherFacts == r.weatherFacts
    ensures !Occurs("white house", NameKey(r)) && (Occurs("iad13", NameKey(r)) || Occurs("data center", NameKey(r))) ==>
      && o.name == Some(DataCenterName) && o.referenceImage == Some(DataCenterImage)
      && o.weatherFacts == Some(DataCenterWeather)
    ensures !Occurs("white house", NameKey(r)) && !Occurs("iad13", NameKey(r)) && !Occurs("data center", NameKey(r)) ==>
      o == r
  {
    var nameLower := NameKey(r);
    IncludesIsOccurs(nameLower, "white house");
    IncludesIsOccurs(nameLower, "iad13");
    IncludesIsOccurs(nameLower, "data center");
    if Includes(nameLower, "white house") then
      r.(name := Some(WhiteHouseName), referenceImage := Some(WhiteHouseImage))
    else if Includes(nameLower, "iad13") || Includes(nameLower, "data center") then
      r.(name := Some(DataCenterName), referenceImage := Some(DataCenterImage),
         weatherFacts := Some(DataCenterWeather))
    else
      r
  }

  /** Both canonical names still match their own rule once lower-cased, and only that rule. */
  lemma CanonicalNamesMatchThemselves()
    ensures Includes(ToLower(WhiteHouseName), "white house")
    ensures !Includes(ToLower(DataCenterName), "white house")
    ensures Includes(ToLower(DataCenterName), "iad13")
  {
    assert ToLower(WhiteHouseName) == "white house";
    IncludesSelf("white house");
    var dc := ToLower(DataCenterName);
    assert dc == "iad13 data center";
    FirstCharAbsent(dc, "white house");
    IncludesPrefix(dc, "iad13");
  }

  /** Running the override pass on its own output changes nothing. */
  lemma OverridesIdempotent(r: RecognitionResult)
    ensures ApplyOverrides(ApplyOverrides(r)) == ApplyOverrides(r)
  {
    CanonicalNamesMatchThemselves();
  }

  /**
   * The match ignores letter case: two names that lower-case alike get the same image and weather
   * record, and either the same canonical name or each keeps its own.
   */
  lemma OverridesIgnoreCase(r: RecognitionResult, n1: string, n2: string)
    requires ToLower(n1) == ToLower(n2)
    ensures var o1, o2 := ApplyOverrides(r.(name := Some(n1))), ApplyOverrides(r.(name := Some(n2)));
      && o1.referenceImage == o2.referenceImage && o1.weatherFacts == o2.weatherFacts
      && (o1.name == o2.name || (o1.name == Some(n1) && o2.name == Some(n2)))
  {
    assert NameKey(r.(name := Some(n1))) == NameKey(r.(name := Some(n2)));
  }

  /** A name mentioning both landmarks resolves to the White House. */
  lemma WhiteHouseTakesPriority(r: RecognitionResult)
    requires r.name == Some("WHITE HOUSE data center")
    ensures ApplyOverrides(r).name == Some(WhiteHouseName)
    ensures ApplyOverrides(r).referenceImage == Some(WhiteHouseImage)
  {
    assert NameKey(r)[..11] == "white house";
  }

  /** A noisy name such as "iad13 rack" resolves to the data-centre record. */
  lemma DataCenterExample(r: RecognitionResult)
    requires r.name == Some("iad13 rack")
    ensures ApplyOverrides(r).name == Some(DataCenterName)
    ensures ApplyOverrides(r).weatherFacts == Some(DataCenterWeather)
  {
    assert NameKey(r) == "iad13 rack";
    FirstCharAbsent(NameKey(r), "white house");
    IncludesPrefix(NameKey(r), "iad13");
  }

  // ---------------------------------------------------------------------------------------------
  // Recognition request and its guards

  /** `Math.round(c || 50)`: a missing or zero coordinate becomes 50; halves round upwards. */
  function PromptCoordinate(c: Option<real>): (r: int)
    ensures c.None? || c == Some(0.0) ==> r == 50
    ensures c.Some? && c.value != 0.0 ==> r as real - 0.5 <= c.value < r as real + 0.5
    ensures c.Some? && 0.0 <= c.value <= 100.0 ==> 0 <= r <= 100
  {
    var v := if c.None? || c.value == 0.0 then 50.0 else c.value;
    (v + 0.5).Floor
  }

  /** What the recognition call is asked: the image and the tap coordinates written into the prompt. */
  datatype RecognitionRequest = RecognitionRequest(image: string, promptX: int, promptY: int)

  /** How the recognition call ended: it threw, or it answered with a text and that text's JSON parse. */
  datatype RecognitionReply =
    | RecognitionThrew
    | RecognitionReplied(text: Option<string>, parsed: Option<RecognitionResult>)

  /** The request sent (none when the key is missing) and the result returned (`null` as None). */
  datatype Recognition = Recognition(request: Option<RecognitionRequest>, result: Option<RecognitionResult>)

  /**
   * `recognizeObject`: without a key nothing is sent and the result is null; a failed call, an
   * empty answer or an unparsable one gives null; otherwise the parsed record after the overrides.
   */
  function RecognizeObject(key: string, image: string, clickX: Option<real>, clickY: Option<real>,
                           reply: RecognitionReply): (out: Recognition)
    ensures key == "" ==> out.request.None? && out.result.None?
    ensures key != "" ==> out.request == Some(RecognitionRequest(image, PromptCoordinate(clickX), PromptCoordinate(clickY)))
    ensures out.result.Some? <==>
      key != "" && reply.RecognitionReplied? && Truthy(reply.text) && reply.parsed.Some?
    ensures out.result.Some? ==> out.result.value == ApplyOverrides(reply.parsed.value)
  {
    if key == "" then Recognition(None, None)
    else
      var request := Some(RecognitionRequest(image, PromptCoordinate(clickX), PromptCoordinate(clickY)));
      match reply
      case RecognitionThrew => Recognition(request, None)
      case RecognitionReplied(text, parsed) =>
        if !Truthy(text) then Recognition(request, None)
        else match parsed
          case None => Recognition(request, None)
          case Some(result) => Recognition(request, Some(ApplyOverrides(result)))
  }

  // ---------------------------------------------------------------------------------------------
  // Narration audio: PCM16 mono decoding

  /** An element of a `Uint8Array`. */
  newtype byte = x: int | 0 <= x < 256

  /** Storing a number into a `Uint8Array` keeps it modulo 256. */
  function ToUint8(code: int): (b: byte)
    ensures 0 <= code < 256 ==> b as int == code
    ensures (b as int - code) % 256 == 0
  {
    (code % 256) as byte
  }

  /** The character codes of the decoded audio string, as the bytes of a `Uint8Array`. */
  function CharCodes(binary: seq<char>): (bytes: seq<byte>)
    ensures |bytes| == |binary|
    ensures forall i :: 0 <= i < |binary| && binary[i] as int < 256 ==> bytes[i] as int == binary[i] as int
  {
    seq(|binary|, i requires 0 <= i < |binary| => ToUint8(binary[i] as int))
  }

  /** Whether a number fits a signed 16-bit integer. */
  predicate IsInt16(v: int) {
    -32768 <= v < 32768
  }

  /** The signed 16-bit value of a little-endian byte pair. */
  function Int16LE(lo: byte, hi: byte): (v: int)
    ensures IsInt16(v)
    ensures (v - lo as int - 256 * hi as int) % 65536 == 0
  {
    var u := lo as int + 256 * hi as int;
    if u >= 32768 then u - 65536 else u
  }

  /** The `Int16Array` view of an even number of bytes: one value per byte pair, little-endian. */
  function Int16View(bytes: seq<byte>): (pcm: seq<int>)
    requires |bytes| % 2 == 0
    ensures |pcm| == |bytes| / 2
    ensures forall i :: 0 <= i < |pcm| ==> IsInt16(pcm[i])
    decreases |bytes|
  {
    if bytes == [] then [] else [Int16LE(bytes[0], bytes[1])] + Int16View(bytes[2..])
  }

  /** Value `i` of the view is built from bytes `2i` and `2i+1`. */
  lemma {:induction false} Int16ViewAt(bytes: seq<byte>, i: nat)
    requires |bytes| % 2 == 0 && i < |bytes| / 2
    ensures Int16View(bytes)[i] == Int16LE(bytes[2 * i], bytes[2 * i + 1])
    decreases i
  {
    if i > 0 {
      Int16ViewAt(bytes[2..], i - 1);
    }
  }

  /** The little-endian bytes of signed 16-bit values: the inverse of the view. */
  function EncodeInt16LE(pcm: seq<int>): (bytes: seq<byte>)
    requires forall i :: 0 <= i < |pcm| ==> IsInt16(pcm[i])
    ensures |bytes| == 2 * |pcm|
  {
    if pcm == [] then []
    else
      var u := if pcm[0] < 0 then pcm[0] + 65536 else pcm[0];
      assert IsInt16(pcm[0]);
      [(u % 256) as byte, (u / 256) as byte] + EncodeInt16LE(pcm[1..])
  }

  /** Viewing encoded values gives the values back. */
  lemma {:induction false} ViewOfEncode(pcm: seq<int>)
    requires forall i :: 0 <= i < |pcm| ==> IsInt16(pcm[i])
    ensures Int16View(EncodeInt16LE(pcm)) == pcm
  {
    if pcm != [] {
      var bytes := EncodeInt16LE(pcm);
      assert bytes[2..] == EncodeInt16LE(pcm[1..]);
      ViewOfEncode(pcm[1..]);
    }
  }

  /** Encoding the view of some bytes gives the bytes back. */
  lemma {:induction false} EncodeOfView(bytes: seq<byte>)
    requires |bytes| % 2 == 0
    ensures EncodeInt16LE(Int16View(bytes)) == bytes
    decreases |bytes|
  {
    if bytes != [] {
      var pcm := Int16View(bytes);
      assert pcm[1..] == Int16View(bytes[2..]);
      EncodeOfView(bytes[2..]);
      assert bytes == [bytes[0], bytes[1]] + bytes[2..];
    }
  }

  /** Dividing by 32768 puts every 16-bit value into [-1, 1); multiplying back recovers it. */
  function Normalise(pcm: seq<int>): (samples: seq<real>)
    requires forall i :: 0 <= i < |pcm| ==> IsInt16(pcm[i])
    ensures |samples| == |pcm|
    ensures forall i :: 0 <= i < |pcm| ==> -1.0 <= samples[i] < 1.0 && samples[i] * 32768.0 == pcm[i] as real
  {
    var samples := seq(|pcm|, i requires 0 <= i < |pcm| => pcm[i] as real / 32768.0);
    assert forall i :: 0 <= i < |pcm| ==> IsInt16(pcm[i]) && samples[i] == pcm[i] as real / 32768.0;
    samples
  }

  const SampleRate: nat := 24000
  const Voice: string := "Kore"

  /** What the speech call is asked: the text and the prebuilt voice. */
  datatype SpeechRequest = SpeechRequest(text: string, voice: string)

  /**
   * How the speech call ended: it threw, or it answered with the first part's base64 audio (if any)
   * and that audio's `atob` decoding (None when decoding threw).
   */
  datatype SpeechReply =
    | SpeechThrew
    | SpeechReplied(audio: Option<string>, decoded: Option<seq<char>>)

  /** The buffer handed to the audio output. */
  datatype Playback = Playback(channels: nat, sampleRate: nat, samples: seq<real>)

  /**
   * `speakMessage`: with a key and a decodable answer of a positive, even number of bytes, plays one
   * channel at 24000 Hz whose sample i is the little-endian 16-bit value of bytes 2i and 2i+1 over
   * 32768. Every other outcome plays nothing: an odd byte count makes the 16-bit view throw, and
   * zero bytes make the creation of an empty audio buffer throw.
   */
  method SpeakMessage(key: string, text: string, reply: SpeechReply)
    returns (request: Option<SpeechRequest>, played: Option<Playback>)
    ensures key == "" ==> request.None? && played.None?
    ensures key != "" ==> request == Some(SpeechRequest(text, Voice))
    ensures played.Some? <==>
      && key != "" && reply.SpeechReplied? && Truthy(reply.audio) && reply.decoded.Some?
      && |reply.decoded.value| % 2 == 0 && |reply.decoded.value| > 0
    ensures played.Some? ==>
      && played.value.channels == 1 && played.value.sampleRate == SampleRate
      && |played.value.samples| == |reply.decoded.value| / 2
      && played.value.samples == Normalise(Int16View(CharCodes(reply.decoded.value)))
      && (forall i :: 0 <= i < |played.value.samples| ==> -1.0 <= played.value.samples[i] < 1.0)
      && forall i :: 0 <= i < |played.value.samples| ==>
           var bytes := CharCodes(reply.decoded.value);
           played.value.samples[i] == Int16LE(bytes[2 * i], bytes[2 * i + 1]) as real / 32768.0
  {
    if key == "" {
      return None, None;
    }
    request := Some(SpeechRequest(text, Voice));
    if reply.SpeechThrew? || !Truthy(reply.audio) || reply.decoded.None? {
      return request, None;
    }
    var binaryString := reply.decoded.value;
    var bytes := new byte[|binaryString|];
    for i := 0 to |binaryString|
      invariant forall k :: 0 <= k < i ==> bytes[k] == ToUint8(binaryString[k] as int)
    {
      bytes[i] := ToUint8(binaryString[i] as int);
    }
    var byteSeq := bytes[..];
    assert byteSeq == CharCodes(binaryString);
    if |byteSeq| % 2 != 0 {
      // the Int16Array construction throws on an odd byte length; the error is swallowed
      return request, None;
    }
    var dataInt16 := Int16View(byteSeq);
    if |dataInt16| == 0 {
      // creating an audio buffer of length 0 throws; the error is swallowed
      return request, None;
    }
    var channelData := new real[|dataInt16|];
    for i := 0 to |dataInt16|
      invariant forall k :: 0 <= k < i ==> channelData[k] == Normalise(dataInt16)[k]
    {
      channelData[i] := dataInt16[i] as real / 32768.0;
    }
    assert channelData[..] == Normalise(dataInt16);
    played := Some(Playback(1, SampleRate, channelData[..]));
    forall i | 0 <= i < |dataInt16|
      ensures channelData[i] == Int16LE(byteSeq[2 * i], byteSeq[2 * i + 1]) as real / 32768.0
    {
      Int16ViewAt(byteSeq, i);
    }
  }

  // ---------------------------------------------------------------------------------------------
  // Generated image: data URL

  /** The inline payload of a response part. */
  datatype InlineData = InlineData(data: string)
  /** A part of the image call's first candidate. */
  datatype Part = Part(inlineData: Option<InlineData>)

  /** How the image call ended: it threw, or it answered with the first candidate's parts (if any). */
  datatype VisualReply = VisualThrew | VisualReplied(parts: Option<seq<Part>>)

  /** What the image call is asked: the decorated prompt and the aspect ratio. */
  datatype ImageRequest = ImageRequest(text: string, aspectRatio: string)

  /** The request sent (none without a key) and the image returned (`null` as None). */
  datatype Visual = Visual(request: Option<ImageRequest>, image: Option<string>)

  const DataUrlPrefix: string := "data:image/png;base64,"

  /** The prompt sent for an illustration of `prompt`. */
  function VisualPromptText(prompt: string): string {
    "A grayscale, monochrome, artistic noir architectural photograph of: " + prompt
    + ". High contrast, cinematic lighting."
  }

  /** `parts.find(p => p.inlineData)`, as an index: the first part that carries inline data. */
  function FindInlinePart(parts: seq<Part>): (k: Option<nat>)
    ensures k.Some? ==> k.value < |parts| && parts[k.value].inlineData.Some?
    ensures k.Some? ==> forall j :: 0 <= j < k.value ==> parts[j].inlineData.None?
    ensures k.None? ==> forall j :: 0 <= j < |parts| ==> parts[j].inlineData.None?
  {
    if parts == [] then None
    else if parts[0].inlineData.Some? then Some(0)
    else match FindInlinePart(parts[1..])
      case None => None
      case Some(j) => Some(j + 1)
  }

  /** The data URL of a base64 PNG payload. */
  function DataUrl(data: string): string {
    DataUrlPrefix + data
  }

  /** The base64 payload of a PNG data URL, or None when `url` is not one. */
  function DataUrlPayload(url: string): Option<string> {
    if |DataUrlPrefix| <= |url| && url[..|DataUrlPrefix|] == DataUrlPrefix
    then Some(url[|DataUrlPrefix|..]) else None
  }

  /** Reading back a data URL gives its payload. */
  lemma DataUrlRoundTrip(data: string)
    ensures DataUrlPayload(DataUrl(data)) == Some(data)
  {
    assert DataUrl(data)[..|DataUrlPrefix|] == DataUrlPrefix;
  }

  /**
   * `generateAIVisual`: without a key nothing is sent and the result is null; otherwise the data URL
   * of the first part carrying inline data, or null when no part does or the call failed. The result
   * is never the quota sentinel.
   */
  function GenerateAIVisual(key: string, prompt: string, reply: VisualReply): (out: Visual)
    ensures key == "" ==> out.request.None? && out.image.None?
    ensures key != "" ==> out.request == Some(ImageRequest(VisualPromptText(prompt), "1:1"))
    ensures out.image.Some? <==>
      && key != "" && reply.VisualReplied? && reply.parts.Some?
      && exists j :: 0 <= j < |reply.parts.value| && reply.parts.value[j].inlineData.Some?
    ensures out.image.Some? ==> exists j ::
      && 0 <= j < |reply.parts.value| && reply.parts.value[j].inlineData.Some?
      && (forall i :: 0 <= i < j ==> reply.parts.value[i].inlineData.None?)
      && DataUrlPayload(out.image.value) == Some(reply.parts.value[j].inlineData.value.data)
    ensures out.image != Some(QuotaSentinel)
  {
    if key == "" then Visual(None, None)
    else
      var request := Some(ImageRequest(VisualPromptText(prompt), "1:1"));
      match reply
      case VisualThrew => Visual(request, None)
      case VisualReplied(parts) =>
        match parts
        case None => Visual(request, None)
        case Some(ps) =>
          match FindInlinePart(ps)
          case None => Visual(request, None)
          case Some(k) =>
            var data := ps[k].inlineData.value.data;
            DataUrlRoundTrip(data);
            assert DataUrl(data)[0] != QuotaSentinel[0];
            Visual(request, Some(DataUrl(data)))
  }
}

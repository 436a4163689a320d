/**
 * The service layer: the text, title and speech requests to the generative
 * API, and the decoding of the speech payload (base64 of 16-bit
 * little-endian PCM) into an audio buffer.
 *
 * The API itself is an oracle. `apiKey` is the `API_KEY` environment
 * variable; a `Reply` is what the SDK call produced: `Answered(x)` with the
 * part of the response the code reads, or `Failed` when the call threw.
 */
module GeminiService {
  import opened JsCore
  import opened Base64

  datatype Reply<T> = Answered(value: T) | Failed

  /** `getClient()` returns a client exactly when the key is set and not empty. */
  predicate HasClient(apiKey: Option<string>) {
    apiKey.Some? && Truthy(apiKey.value)
  }

  // ---------------------------------------------------------------------------
  // generateBookContent and suggestBookTitles

  const NoKeyMessage: string :=
    "Erro: Chave de API não encontrada. Verifique as configurações do ambiente (Vercel)."
  const ContentErrorMessage: string :=
    "Desculpe, ocorreu um erro ao gerar o conteúdo. Tente novamente."

  /**
   * The `text` field of what `generateBookContent` resolves to. `reply`
   * carries `response.text`, which the SDK may leave undefined.
   */
  function GenerateBookContent(apiKey: Option<string>, reply: Reply<Option<string>>): (text: Option<string>)
    ensures !HasClient(apiKey) ==> text == Some(NoKeyMessage)
    ensures HasClient(apiKey) && reply.Failed? ==> text == Some(ContentErrorMessage)
    ensures HasClient(apiKey) && reply.Answered? ==> text == reply.value
    ensures text.None? ==> reply == Answered(None)
  {
    if !HasClient(apiKey) then Some(NoKeyMessage)
    else match reply
      case Failed => Some(ContentErrorMessage)
      case Answered(t) => t
  }

  /**
   * `suggestBookTitles`: the titles parsed from the response text. `parse`
   * stands for `JSON.parse(...) as string[]`, `None` where it throws (the
   * throw is caught by the same `try`).
   */
  function SuggestBookTitles(apiKey: Option<string>, reply: Reply<Option<string>>,
                             parse: string -> Option<seq<string>>): (titles: seq<string>)
    ensures !HasClient(apiKey) ==> titles == []
    ensures reply.Failed? ==> titles == []
    ensures reply.Answered? && (reply.value.None? || reply.value.value == "") ==> titles == []
    ensures HasClient(apiKey) && reply.Answered? && reply.value.Some? && reply.value.value != "" ==>
      titles == (if parse(reply.value.value).Some? then parse(reply.value.value).value else [])
    ensures titles != [] ==> HasClient(apiKey) && reply.Answered? && reply.value.Some? &&
                             parse(reply.value.value) == Some(titles)
  {
    if !HasClient(apiKey) then []
    else match reply
      case Failed => []
      case Answered(jsonText) =>
        if jsonText.None? || !Truthy(jsonText.value) then []
        else match parse(jsonText.value)
          case None => []
          case Some(ts) => ts
  }

  // ---------------------------------------------------------------------------
  // decode

  /** The byte codes of a binary string. */
  function CharCodes(bin: string): (bs: seq<Byte>)
    requires forall i :: 0 <= i < |bin| ==> bin[i] as int < 256
    ensures |bs| == |bin|
    ensures forall i :: 0 <= i < |bs| ==> bs[i] == bin[i] as int
  {
    if bin == [] then [] else [bin[0] as int] + CharCodes(bin[1..])
  }

  /**
   * `decode(base64)`: `atob`, then one byte per character of the binary
   * string, byte `i` being the code of character `i`. `None` where `atob`
   * throws.
   */
  method Decode(base64: string) returns (bytes: Option<seq<Byte>>)
    ensures bytes.Some? <==> Atob(base64).Some?
    ensures bytes.Some? ==> bytes.value == CharCodes(Atob(base64).value)
  {
    var decoded := Atob(base64);
    if decoded.None? {
      return None;
    }
    var codes := ByteCodes(decoded.value);
    bytes := Some(codes);
  }

  /** The loop of `decode`: a byte array filled with the character codes, one by one. */
  method ByteCodes(binaryString: string) returns (codes: seq<Byte>)
    requires forall i :: 0 <= i < |binaryString| ==> binaryString[i] as int < 256
    ensures codes == CharCodes(binaryString)
  {
    var len := |binaryString|;
    var a := new Byte[len];
    for i := 0 to len
      invariant forall k :: 0 <= k < i ==> a[k] == binaryString[k] as int
    {
      a[i] := binaryString[i] as int;
    }
    codes := a[..];
  }

  /** Decoding the RFC 4648 encoding of a byte string gives the byte string back. */
  lemma DecodeEncodeRoundTrip(bs: seq<Byte>)
    ensures Atob(Encode(bs)).Some?
    ensures CharCodes(Atob(Encode(bs)).value) == bs
  {
    AtobEncode(bs);
  }

  // ---------------------------------------------------------------------------
  // decodeAudioData

  type Int16 = x: int | -32768 <= x <= 32767

  /** The signed 16-bit little-endian integer of the bytes `lo`, `hi`. */
  function Int16Of(lo: Byte, hi: Byte): (v: Int16)
    ensures v < 0 <==> hi >= 128
    ensures v == lo + 256 * hi || v == lo + 256 * hi - 65536
  {
    var u := lo + 256 * hi;
    if u >= 32768 then u - 65536 else u
  }

  /** `new Int16Array(data.buffer)` for an even number of bytes. */
  function Int16Samples(data: seq<Byte>): (pcm: seq<Int16>)
    requires |data| % 2 == 0
    ensures |pcm| == |data| / 2
    ensures forall k :: 0 <= k < |pcm| ==> pcm[k] == Int16Of(data[2 * k], data[2 * k + 1])
    decreases |data|
  {
    if data == [] then [] else [Int16Of(data[0], data[1])] + Int16Samples(data[2..])
  }

  /** `v / 32768.0`: exact, since the divisor is a power of two and `v` has 16 bits. */
  function Normalize(v: Int16): (x: real)
    ensures -1.0 <= x <= 32767.0 / 32768.0
    ensures x * 32768.0 == v as real
  {
    v as real / 32768.0
  }

  lemma NormalizeFixedPoints()
    ensures Normalize(0) == 0.0
    ensures Normalize(-32768) == -1.0
    ensures Normalize(32767) == 32767.0 / 32768.0
  {
  }

  lemma {:induction false} MulMonotone(a: int, b: int, k: int)
    requires 0 <= a <= b && k >= 0
    ensures a * k <= b * k
    decreases b - a
  {
    if a < b {
      MulMonotone(a, b - 1, k);
      assert b * k == (b - 1) * k + k;
    }
  }

  /** Frame `i` of channel `c` lies inside an interleaved stream of `n` samples. */
  lemma InterleavedIndexInRange(i: int, c: int, nc: int, n: nat)
    requires nc > 0 && 0 <= c < nc && 0 <= i < n / nc
    ensures 0 <= i * nc + c < n
  {
    var q := n / nc;
    assert n == q * nc + n % nc;
    MulMonotone(i + 1, q, nc);
    assert (i + 1) * nc == i * nc + nc;
    MulMonotone(0, i, nc);
  }

  /** The interleaved sample of frame `i`, channel `c`: position `i * nc + c`. */
  function SampleAt(pcm: seq<Int16>, nc: int, i: int, c: int): (v: Int16)
    requires nc > 0 && 0 <= c < nc && 0 <= i < |pcm| / nc
  {
    InterleavedIndexInRange(i, c, nc, |pcm|);
    pcm[i * nc + c]
  }

  datatype AudioError = RangeError | NotSupportedError

  datatype AudioResult = Success(value: AudioBuffer) | Failure(error: AudioError)

  /**
   * The part of an `AudioBuffer` the application uses: its sample rate, its
   * length in sample frames and one sample array per channel.
   */
  datatype AudioBuffer = AudioBuffer(sampleRate: int, length: nat, channels: seq<seq<real>>)

  /** The most channels `createBuffer` accepts (the Web Audio API requires at least 32). */
  const MaxChannels: int := 32

  /**
   * What `decodeAudioData(data, ctx, sampleRate, numChannels)` produces: the
   * `Int16Array` view throws a `RangeError` on an odd byte count, and
   * `createBuffer` throws a `NotSupportedError` for a channel count outside
   * 1..32 or a length of zero frames. The frame count is the sample count
   * divided by the channel count and rounded down, as `createBuffer`
   * converts its length argument to an integer.
   */
  function PcmBuffer(data: seq<Byte>, sampleRate: int, numChannels: int): (r: AudioResult)
  {
    if |data| % 2 != 0 then Failure(RangeError)
    else if numChannels < 1 || numChannels > MaxChannels then Failure(NotSupportedError)
    else
      var pcm := Int16Samples(data);
      var frameCount := |pcm| / numChannels;
      if frameCount == 0 then Failure(NotSupportedError)
      else Success(AudioBuffer(sampleRate, frameCount,
        seq(numChannels, c requires 0 <= c < numChannels =>
          seq(frameCount, i requires 0 <= i < frameCount =>
            Normalize(SampleAt(pcm, numChannels, i, c))))))
  }

  /** When the conversion fails, and the shape of the buffer when it succeeds. */
  lemma PcmBufferShape(data: seq<Byte>, sampleRate: int, numChannels: int)
    ensures PcmBuffer(data, sampleRate, numChannels).Success? <==>
      |data| % 2 == 0 && 1 <= numChannels <= MaxChannels && |data| / 2 / numChannels >= 1
    ensures PcmBuffer(data, sampleRate, numChannels).Success? ==>
      var b := PcmBuffer(data, sampleRate, numChannels).value;
      b.sampleRate == sampleRate && b.length == |data| / 2 / numChannels &&
      |b.channels| == numChannels &&
      forall c :: 0 <= c < numChannels ==> |b.channels[c]| == b.length
  {
  }

  /** Channel `c`, frame `i` of the buffer is the interleaved int16 at `i * numChannels + c`, over 32768. */
  lemma PcmBufferSample(data: seq<Byte>, sampleRate: int, numChannels: int, c: int, i: int)
    requires PcmBuffer(data, sampleRate, numChannels).Success?
    requires 0 <= c < numChannels && 0 <= i < PcmBuffer(data, sampleRate, numChannels).value.length
    ensures 0 <= i * numChannels + c < |data| / 2
    ensures var k := i * numChannels + c;
      PcmBuffer(data, sampleRate, numChannels).value.channels[c][i] ==
        Normalize(Int16Of(data[2 * k], data[2 * k + 1]))
  {
    InterleavedIndexInRange(i, c, numChannels, |data| / 2);
  }

  /** Every sample of a decoded buffer lies in [-1, 32767/32768]. */
  lemma PcmBufferRange(data: seq<Byte>, sampleRate: int, numChannels: int, c: int, i: int)
    requires PcmBuffer(data, sampleRate, numChannels).Success?
    requires 0 <= c < numChannels && 0 <= i < PcmBuffer(data, sampleRate, numChannels).value.length
    ensures -1.0 <= PcmBuffer(data, sampleRate, numChannels).value.channels[c][i] <= 32767.0 / 32768.0
  {
    PcmBufferSample(data, sampleRate, numChannels, c, i);
  }

  /** A mono payload of 2N bytes, N >= 1, gives exactly N frames, frame i being sample i. */
  lemma MonoFrames(data: seq<Byte>, sampleRate: int, n: nat)
    requires |data| == 2 * n && n >= 1
    ensures PcmBuffer(data, sampleRate, 1).Success?
    ensures PcmBuffer(data, sampleRate, 1).value.length == n
    ensures forall i :: 0 <= i < n ==>
      PcmBuffer(data, sampleRate, 1).value.channels[0][i] == Normalize(Int16Of(data[2 * i], data[2 * i + 1]))
  {
    PcmBufferShape(data, sampleRate, 1);
    forall i | 0 <= i < n
      ensures PcmBuffer(data, sampleRate, 1).value.channels[0][i] == Normalize(Int16Of(data[2 * i], data[2 * i + 1]))
    {
      PcmBufferSample(data, sampleRate, 1, 0, i);
    }
  }

  /** `decodeAudioData`: fills one sample array per channel, frame by frame. */
  method DecodeAudioData(data: seq<Byte>, sampleRate: int, numChannels: int) returns (r: AudioResult)
    ensures r == PcmBuffer(data, sampleRate, numChannels)
  {
    if |data| % 2 != 0 {
      return Failure(RangeError);
    }
    var dataInt16 := Int16Samples(data);
    if numChannels < 1 || numChannels > MaxChannels {
      return Failure(NotSupportedError);
    }
    var frameCount := |dataInt16| / numChannels;
    if frameCount == 0 {
      return Failure(NotSupportedError);
    }
    var channels: seq<seq<real>> := [];
    for channel := 0 to numChannels
      invariant |channels| == channel
      invariant forall c :: 0 <= c < channel ==> |channels[c]| == frameCount
      invariant forall c, i :: 0 <= c < channel && 0 <= i < frameCount ==>
        channels[c][i] == Normalize(SampleAt(dataInt16, numChannels, i, c))
    {
      var channelData := new real[frameCount];
      for i := 0 to frameCount
        invariant forall k :: 0 <= k < i ==> channelData[k] == Normalize(SampleAt(dataInt16, numChannels, k, channel))
      {
        channelData[i] := Normalize(SampleAt(dataInt16, numChannels, i, channel));
      }
      channels := channels + [channelData[..]];
    }
    ghost var expected := PcmBuffer(data, sampleRate, numChannels).value.channels;
    forall c | 0 <= c < numChannels ensures channels[c] == expected[c] {
      assert |channels[c]| == |expected[c]|;
    }
    r := Success(AudioBuffer(sampleRate, frameCount, channels));
  }

  // ---------------------------------------------------------------------------
  // generateBookAudio

  const MaxSpeechChars: nat := 2000
  const SpeechSampleRate: int := 24000
  const SpeechChannels: int := 1

  /** `text ? text.trim().substring(0, 2000) : ""`. */
  function SpeechText(text: string): string {
    Prefix(Trim(text), MaxSpeechChars)
  }

  /** The text sent for speech is the first at most 2000 characters of the trimmed input, and is empty exactly for blank input. */
  lemma SpeechTextSpec(text: string)
    ensures |SpeechText(text)| <= MaxSpeechChars
    ensures SpeechText(text) == Trim(text)[..|SpeechText(text)|]
    ensures |Trim(text)| <= MaxSpeechChars ==> SpeechText(text) == Trim(text)
    ensures SpeechText(text) == "" <==> forall i :: 0 <= i < |text| ==> IsJsSpace(text[i])
  {
    TrimEmptyIffAllSpace(text);
  }

  /** The text sent to the speech model, `None` when no call is made. */
  function SpeechRequest(text: string, apiKey: Option<string>): (request: Option<string>)
    ensures request.Some? <==> HasClient(apiKey) && SpeechText(text) != ""
    ensures request.Some? ==> request.value == SpeechText(text)
  {
    if HasClient(apiKey) && Truthy(SpeechText(text)) then Some(SpeechText(text)) else None
  }

  /** The mono 24 kHz buffer of a base64 payload, `None` where decoding throws. */
  function PayloadAudio(payload: string): (audio: Option<AudioBuffer>)
  {
    match Atob(payload)
    case None => None
    case Some(binary) =>
      match PcmBuffer(CharCodes(binary), SpeechSampleRate, SpeechChannels)
      case Failure(_) => None
      case Success(buffer) => Some(buffer)
  }

  /**
   * A payload yields audio exactly when `atob` accepts it and it holds a
   * whole number of 16-bit samples, at least one; the audio is then the
   * payload's PCM buffer at 24 kHz, one channel.
   */
  lemma PayloadAudioSpec(payload: string)
    ensures PayloadAudio(payload).Some? <==>
      Atob(payload).Some? && |Atob(payload).value| % 2 == 0 && |Atob(payload).value| >= 2
    ensures PayloadAudio(payload).Some? ==>
      PayloadAudio(payload).value ==
        PcmBuffer(CharCodes(Atob(payload).value), SpeechSampleRate, SpeechChannels).value &&
      PayloadAudio(payload).value.sampleRate == SpeechSampleRate &&
      PayloadAudio(payload).value.length == |Atob(payload).value| / 2
    ensures payload == "" ==> PayloadAudio(payload).None?
  {
    if payload == "" {
      assert Atob("") == Some("");
    }
    if Atob(payload).Some? {
      PcmBufferShape(CharCodes(Atob(payload).value), SpeechSampleRate, SpeechChannels);
    }
  }

  /**
   * The narration `generateBookAudio` yields: the audio of the inline data
   * of an answered request, `None` on every failure.
   */
  function Narration(text: string, apiKey: Option<string>, reply: Reply<Option<string>>): (audio: Option<AudioBuffer>)
    ensures SpeechRequest(text, apiKey).None? || reply.Failed? ==> audio.None?
    ensures reply.Answered? && (reply.value.None? || reply.value.value == "") ==> audio.None?
    ensures SpeechRequest(text, apiKey).Some? && reply.Answered? && reply.value.Some? ==>
      audio == PayloadAudio(reply.value.value)
  {
    if SpeechRequest(text, apiKey).None? then None
    else match reply
      case Failed => None
      case Answered(payload) =>
        if payload.None? || !Truthy(payload.value) then None
        else PayloadAudio(payload.value)
  }

  /** Narration audio is always a non-empty buffer at the context's rate. */
  lemma NarrationShape(text: string, apiKey: Option<string>, reply: Reply<Option<string>>)
    ensures Narration(text, apiKey, reply).Some? ==>
      Narration(text, apiKey, reply).value.sampleRate == SpeechSampleRate &&
      Narration(text, apiKey, reply).value.length > 0
  {
    if Narration(text, apiKey, reply).Some? {
      PayloadAudioSpec(reply.value.value);
    }
  }

  /**
   * `generateBookAudio(text, ctx)`. `request` is the text sent to the speech
   * model, `None` when no call is made; `reply` carries the inline audio
   * data of the response. Every failure is `None`, never an exception.
   */
  method GenerateBookAudio(text: string, apiKey: Option<string>, reply: Reply<Option<string>>)
    returns (request: Option<string>, audio: Option<AudioBuffer>)
    ensures request == SpeechRequest(text, apiKey)
    ensures audio == Narration(text, apiKey, reply)
  {
    if !HasClient(apiKey) {
      return None, None;
    }
    var safeText := SpeechText(text);
    if !Truthy(safeText) {
      return None, None;
    }
    request := Some(safeText);
    match reply
    case Failed =>
      audio := None;
    case Answered(base64Audio) =>
      if base64Audio.None? || !Truthy(base64Audio.value) {
        return request, None;
      }
      var bytes := Decode(base64Audio.value);
      if bytes.None? {
        return request, None;
      }
      var decoded := DecodeAudioData(bytes.value, SpeechSampleRate, SpeechChannels);
      if decoded.Failure? {
        return request, None;
      }
      audio := Some(decoded.value);
  }
}

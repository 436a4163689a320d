/**
 * The reader's narration controller. Playing fetches the narration once and
 * caches it; pausing records how far into the clip playback had got, and the
 * next play resumes from there, wrapped around the clip's length.
 *
 * Time is counted in ticks of the audio context's clock, one tick per sample
 * frame: the context is created at 24000 Hz, the rate of every narration
 * buffer, so a buffer of `length` frames lasts `length` ticks.
 */
module Reader {
  import opened JsCore
  import opened Types
  import opened GeminiService

  /** Ticks per second of the audio context's clock. */
  const TicksPerSecond: int := SpeechSampleRate

  /** `buffer.duration || 1`, in ticks: a clip of no frames counts as one second. */
  function LoopTicks(b: AudioBuffer): (n: int)
    requires b.sampleRate == TicksPerSecond
    ensures n > 0
    ensures b.length > 0 ==> n == b.length
  {
    if b.length == 0 then TicksPerSecond else b.length
  }

  /**
   * `pauseTime % (duration || 1)`: where in the clip a play starts. A pause
   * inside the clip resumes at that very point; a later one wraps around.
   */
  function StartOffset(pauseTime: int, b: AudioBuffer): (offset: int)
    requires b.sampleRate == TicksPerSecond
    ensures pauseTime >= 0 ==> 0 <= offset < LoopTicks(b)
    ensures 0 <= pauseTime < LoopTicks(b) ==> offset == pauseTime
  {
    TruncRem(pauseTime, LoopTicks(b))
  }

  /** A position past the end of the clip resumes a whole number of loops earlier. */
  lemma StartOffsetWraps(pauseTime: int, b: AudioBuffer)
    requires b.sampleRate == TicksPerSecond
    ensures (pauseTime - StartOffset(pauseTime, b)) % LoopTicks(b) == 0
  {
  }

  /** The content `playAudio` narrates: `book.content`, when truthy. */
  function NarratedText(book: Book): (text: Option<string>)
    ensures text.Some? <==> book.content.Some? && book.content.value != ""
    ensures text.Some? ==> text.value == book.content.value
  {
    if book.content.Some? && Truthy(book.content.value) then book.content else None
  }

  /**
   * The buffer cached after a play: the one already cached, or else the
   * narration of the book's truthy content.
   */
  function CachedNarration(book: Book, cached: Option<AudioBuffer>,
                           apiKey: Option<string>, reply: Reply<Option<string>>): Option<AudioBuffer>
  {
    if cached.Some? then cached
    else if NarratedText(book).None? then None
    else Narration(NarratedText(book).value, apiKey, reply)
  }

  class Player {
    const book: Book

    var contextExists: bool
    /** `audioBufferRef`: the cached narration. */
    var buffer: Option<AudioBuffer>
    /** `sourceNodeRef`: the buffer the live source node plays. */
    var source: Option<AudioBuffer>
    var startTime: int
    var pauseTime: int
    var isPlaying: bool
    var isLoading: bool

    /** The context's clock at the last call. */
    ghost var clock: int
    /** When the live source was started, and at which offset into the clip. */
    ghost var playedFrom: int
    ghost var startOffset: int
    /** How many audio contexts were created. */
    ghost var contextsCreated: nat

    /**
     * Playing is having a source node; a source exists only once the context
     * does and plays the cached buffer; the position is never negative; a
     * playing source started `startOffset` ticks into the clip.
     */
    ghost predicate Coherent()
      reads this
    {
      (isPlaying <==> source.Some?) &&
      (source.Some? ==> contextExists && source == buffer) &&
      (buffer.Some? ==> buffer.value.sampleRate == TicksPerSecond && buffer.value.length > 0) &&
      contextsCreated == (if contextExists then 1 else 0) &&
      pauseTime >= 0 &&
      (isPlaying ==>
        startTime == playedFrom - startOffset && playedFrom <= clock &&
        0 <= startOffset < buffer.value.length)
    }

    /** Between handler calls, nothing is loading. */
    ghost predicate Valid()
      reads this
    {
      Coherent() && !isLoading
    }

    /** Mounting the reader for a book: nothing created, nothing cached, nothing playing. */
    constructor (book: Book)
      ensures Valid()
      ensures this.book == book
      ensures !contextExists && buffer.None? && source.None? && !isPlaying && !isLoading
      ensures startTime == 0 && pauseTime == 0 && clock == 0
    {
      this.book := book;
      contextExists := false;
      buffer := None;
      source := None;
      startTime := 0;
      pauseTime := 0;
      isPlaying := false;
      isLoading := false;
      clock := 0;
      playedFrom := 0;
      startOffset := 0;
      contextsCreated := 0;
    }

    /** `stopAudio`: the source goes and playback is off; the position and the cache stay. */
    method StopAudio()
      requires Valid()
      modifies this`source, this`isPlaying
      ensures Valid()
      ensures source.None? && !isPlaying
    {
      if source.Some? {
        source := None;
      }
      isPlaying := false;
    }

    /**
     * `pauseAudio` at context time `now`: without a source nothing happens;
     * otherwise the position becomes the time played since the start plus
     * the offset the play began at.
     */
    method PauseAudio(now: int)
      requires Valid() && now >= clock
      modifies this`source, this`isPlaying, this`pauseTime, this`clock
      ensures Valid() && clock == now
      ensures old(source).None? ==> source.None? && !isPlaying && pauseTime == old(pauseTime)
      ensures old(source).Some? ==>
        source.None? && !isPlaying &&
        pauseTime == now - old(startTime) == (now - old(playedFrom)) + old(startOffset)
    {
      if source.Some? && contextExists {
        pauseTime := now - startTime;
        source := None;
        isPlaying := false;
      }
      clock := now;
    }

    /**
     * `playAudio` at context time `now`. The context is created if absent.
     * Without a cached buffer the narration is fetched for truthy content,
     * `fetched` being the text it is fetched for; a failed fetch or missing
     * content leaves playback off. With a buffer, playback starts at the
     * offset of the recorded position.
     */
    method PlayAudio(now: int, apiKey: Option<string>, reply: Reply<Option<string>>)
      returns (fetched: Option<string>)
      requires Valid() && now >= clock
      modifies this`isLoading, this`contextExists, this`contextsCreated, this`clock, this`buffer,
        this`startTime, this`playedFrom, this`startOffset, this`source, this`isPlaying
      ensures Valid() && clock == now
      ensures contextExists
      ensures old(contextExists) ==> contextsCreated == old(contextsCreated)
      ensures fetched == if old(buffer).None? then NarratedText(book) else None
      ensures buffer == CachedNarration(book, old(buffer), apiKey, reply)
      ensures isPlaying <==> buffer.Some?
      ensures isPlaying ==> startTime == now - StartOffset(old(pauseTime), buffer.value)
      ensures !isPlaying ==> startTime == old(startTime)
      ensures pauseTime == old(pauseTime)
    {
      isLoading := true;
      fetched := LoadAndStart(now, apiKey, reply);
      isLoading := false;
    }

    /** The steps of `playAudio` between raising and lowering `isLoading`. */
    method LoadAndStart(now: int, apiKey: Option<string>, reply: Reply<Option<string>>)
      returns (fetched: Option<string>)
      requires Coherent() && now >= clock
      modifies this`contextExists, this`contextsCreated, this`clock, this`buffer,
        this`startTime, this`playedFrom, this`startOffset, this`source, this`isPlaying
      ensures Coherent() && clock == now
      ensures contextExists
      ensures old(contextExists) ==> contextsCreated == old(contextsCreated)
      ensures fetched == if old(buffer).None? then NarratedText(book) else None
      ensures buffer == CachedNarration(book, old(buffer), apiKey, reply)
      ensures isPlaying <==> buffer.Some?
      ensures isPlaying ==> startTime == now - StartOffset(pauseTime, buffer.value)
      ensures !isPlaying ==> startTime == old(startTime)
    {
      EnsureContext();
      clock := now;
      fetched := None;
      if buffer.None? {
        fetched := FetchNarration(apiKey, reply);
      }
      if buffer.Some? {
        StartPlayback(now);
      }
    }

    /** Step 1 of `playAudio`: create the context unless it exists. */
    method EnsureContext()
      requires Coherent()
      modifies this`contextExists, this`contextsCreated
      ensures Coherent() && contextExists
      ensures old(contextExists) ==> contextsCreated == old(contextsCreated)
    {
      if !contextExists {
        contextExists := true;
        contextsCreated := contextsCreated + 1;
      }
    }

    /**
     * Step 2 of `playAudio`, without a cached buffer: the narration of truthy
     * content is fetched and cached; on failure nothing is cached.
     */
    method FetchNarration(apiKey: Option<string>, reply: Reply<Option<string>>)
      returns (fetched: Option<string>)
      requires Coherent() && buffer.None?
      modifies this`buffer
      ensures Coherent()
      ensures fetched == NarratedText(book)
      ensures buffer == CachedNarration(book, old(buffer), apiKey, reply)
    {
      fetched := NarratedText(book);
      if fetched.Some? {
        var request;
        request, buffer := GenerateBookAudio(fetched.value, apiKey, reply);
        NarrationShape(fetched.value, apiKey, reply);
      }
    }

    /** Step 3 of `playAudio`: a source for the cached buffer, started at the offset of the position. */
    method StartPlayback(now: int)
      requires Coherent() && contextExists && buffer.Some? && now == clock
      modifies this`startTime, this`playedFrom, this`startOffset, this`source, this`isPlaying
      ensures Coherent()
      ensures isPlaying && source == buffer
      ensures startTime == now - StartOffset(pauseTime, buffer.value)
    {
      var offset := StartOffset(pauseTime, buffer.value);
      startTime := now - offset;
      playedFrom := now;
      startOffset := offset;
      source := buffer;
      isPlaying := true;
    }

    /** `toggleAudio`: pause while playing, play otherwise. */
    method ToggleAudio(now: int, apiKey: Option<string>, reply: Reply<Option<string>>)
      returns (fetched: Option<string>)
      requires Valid() && now >= clock
      modifies this`isLoading, this`contextExists, this`contextsCreated, this`clock, this`buffer,
        this`startTime, this`playedFrom, this`startOffset, this`source, this`isPlaying, this`pauseTime
      ensures Valid() && clock == now
      ensures old(buffer).Some? ==> buffer == old(buffer)
      ensures old(isPlaying) ==>
        fetched.None? && !isPlaying && pauseTime == now - old(startTime) &&
        buffer == old(buffer) && contextExists == old(contextExists) && startTime == old(startTime) &&
        contextsCreated == old(contextsCreated)
      ensures !old(isPlaying) ==>
        fetched == (if old(buffer).None? then NarratedText(book) else None) &&
        contextExists && (old(contextExists) ==> contextsCreated == old(contextsCreated)) &&
        buffer == CachedNarration(book, old(buffer), apiKey, reply) &&
        (isPlaying <==> buffer.Some?) &&
        (isPlaying ==> startTime == now - StartOffset(old(pauseTime), buffer.value)) &&
        (!isPlaying ==> startTime == old(startTime)) &&
        pauseTime == old(pauseTime)
    {
      if isPlaying {
        PauseAudio(now);
        fetched := None;
      } else {
        fetched := PlayAudio(now, apiKey, reply);
      }
    }
  }
}

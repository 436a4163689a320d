# A verified model of the reading app's logic

The application is a mobile-style React app for reading and writing books.
It has a home feed with category chips and book sections, a writing studio
that keeps a draft as a list of pages, and a reader that narrates a book
through a text-to-speech model. Most of the code is layout. This project
models the logic underneath it in Dafny and proves what that logic
promises:

- **Writing studio** (`Editor`). The page list is a class whose methods keep
  the list non-empty and the current index in range. Saving writes the pages
  as one string joined with `PAGE_DELIMITER`, and loading splits it again;
  the two are inverse whenever no page contains `<!-- PAGE_BREAK -->`. The
  model also states the context sent for AI writing and the synopsis sent
  for title suggestions.
- **Narration player** (`Reader`). The refs and flags of the reader form a
  class. Play, pause, stop and toggle keep an invariant: playing is having a
  source, a source plays the cached buffer, and the context is created at
  most once. The position arithmetic runs in integer ticks of the 24 kHz
  audio clock.
- **Service layer** (`GeminiService`, `Base64`). `decode` runs `atob` (the
  forgiving-base64 decode of the WHATWG Infra Standard, section 4.7) and is
  the inverse of the encoding of section 4 of RFC 4648. `decodeAudioData`
  de-interleaves 16-bit little-endian PCM into per-channel samples in
  [-1, 32767/32768]. The speech text is trimmed and truncated to 2000
  characters. Every failure of `generateBookAudio` yields `null`, and the
  text and title services have fixed fallbacks.
- **Shell** (`App`). The library is a value that each event replaces: theme
  toggle, like toggle, save-by-prepending, category filter and the reversed
  section. The library never shrinks, so the featured book always exists.
- **Display rules** (`FeedPost`, `SettingsModal`, `BottomNav`, `TopBar`):
  the caption preview, the likes and comments labels and the avatar
  fallback; the theme options; the single active tab; the greeting by hour.

`JsCore` holds the JavaScript semantics these need: truthiness, `trim`,
`substring`/`slice`, `split`/`join`, the truncating `%` and `String(n)`.
`Types` holds the shared records.

Oracles are parameters. `apiKey` is `process.env.API_KEY`. A
`Reply<T>` is what an SDK call produced: `Answered(x)` with the field the
code reads, or `Failed` when the call threw. `parse` stands for the
`JSON.parse` of the title list. `now` is the audio context's `currentTime`
in ticks, `hour` is `getHours()`, and `idTime`/`coverTime` are the two
`Date.now()` readings. A saved draft is the parsed local-storage entry.

## Model

| member | source | states |
|---|---|---|
| JsCore.OrElse | components/FeedPost.tsx:20 | `x \|\| fallback` on optional strings: the value when present and non-empty, otherwise the fallback |
| JsCore.TrimStart | services/geminiService.ts:112 | removes exactly the leading JavaScript white space: the result is a suffix, it starts with a non-space and every removed character is a space |
| JsCore.TrimEnd | services/geminiService.ts:112 | removes exactly the trailing white space: the result is a prefix, it ends with a non-space and every removed character is a space |
| JsCore.Trim | services/geminiService.ts:112 | `trim()`: the infix of the input left when its leading and trailing white space is removed; every removed character is white space, and neither end of a non-empty result is |
| JsCore.PrefixOfSuffix | services/geminiService.ts:112 | a prefix of a suffix is an infix, followed in the whole string by what follows it in the suffix; `Trim` rests on it |
| JsCore.TrimEmptyIffAllSpace | components/Editor.tsx:79 | a trimmed string is empty exactly when every character is white space, so `!prompt.trim()` is "the prompt is blank" |
| JsCore.Prefix | components/Editor.tsx:97 | `substring(0, n)`: the first `min(n, length)` characters |
| JsCore.Suffix | components/Editor.tsx:84 | `slice(-n)`: the last `min(n, length)` characters |
| JsCore.Join | components/Editor.tsx:41 | `join(sep)`: empty for no parts, the part itself for one part |
| JsCore.IndexOf | components/Editor.tsx:31 | the leftmost occurrence at or after `from`: it is an occurrence and none lies before it; `None` exactly when there is no occurrence |
| JsCore.Split | components/Editor.tsx:32 | `split(sep)` always yields at least one piece |
| JsCore.SplitWithoutSeparator | components/Editor.tsx:32 | a string without the separator splits into itself alone |
| JsCore.TruncRem | components/Reader.tsx:81 | JavaScript `%`: the result has the sign of the dividend, lies strictly inside (-d, d), equals the dividend when that is in [0, d), and differs from the dividend by a multiple of `d` |
| JsCore.NatToString | components/FeedPost.tsx:78 | decimal digits without a leading zero |
| JsCore.IntToString | components/FeedPost.tsx:78 | `${n}` starts with `-` exactly for negative numbers |
| JsCore.NatToStringRoundTrip | components/FeedPost.tsx:78 | reading the digits of `n` back gives `n` |
| JsCore.IntToStringRoundTrip | components/FeedPost.tsx:91 | reading `${n}` back as a signed numeral gives `n` |
| Types.NavTab.Id | types.ts:24 | every tab literal is non-empty |
| Types.TabOfId | components/BottomNav.tsx:31 | `id as NavTab`: a recognised literal maps to the tab whose literal it is |
| Types.TabIdRoundTrip | types.ts:24 | every literal is recognised as its own tab, so the five literals are distinct |
| Base64.CharOf | services/geminiService.ts:74 | each sextet has an alphabet character that reads back as that sextet |
| Base64.Sextets | services/geminiService.ts:74 | four sextets per full group of three bytes, two or three for a tail of one or two bytes, so never a length of 1 modulo 4 |
| Base64.CharsOf | services/geminiService.ts:74 | one alphabet character per sextet, reading back as that sextet |
| Base64.Padding | services/geminiService.ts:74 | the `=` characters that complete the final group |
| Base64.PaddedLength | services/geminiService.ts:74 | characters plus padding of `n` bytes fill `(n + 2) / 3` groups of four |
| Base64.Encode | services/geminiService.ts:74 | an encoding has `4 * ceil(n / 3)` characters, a multiple of four |
| Base64.StripWhitespace | services/geminiService.ts:74 | `atob` drops ASCII white space: nothing of it remains, and a string without it is unchanged |
| Base64.StripPadding | services/geminiService.ts:74 | the padding removed is a suffix of the input |
| Base64.BytesOf | services/geminiService.ts:74 | three bytes per group of four sextets, one or two for a tail of two or three |
| Base64.SextetsOf | services/geminiService.ts:74 | the alphabet value of each character |
| Base64.BinaryString | services/geminiService.ts:74 | one character per byte, whose code is the byte |
| Base64.Atob | services/geminiService.ts:74 | every character of a decoded binary string has a code below 256 |
| Base64.GroupRoundTrip | services/geminiService.ts:74 | the three bytes of a group come back from its four sextets |
| Base64.BytesOfSextets | services/geminiService.ts:74 | the bytes of the sextets of a byte string are that byte string |
| Base64.EncodeHasNoWhitespace | services/geminiService.ts:74 | an encoding holds no white space for `atob` to drop |
| Base64.StripPaddingOfPadded | services/geminiService.ts:74 | dropping the padding of whole groups leaves exactly the characters before it |
| Base64.AtobEncode | services/geminiService.ts:74 | `atob` of the RFC 4648 encoding of a byte string is the binary string of those bytes |
| GeminiService.HasClient | services/geminiService.ts:3-10 | a client exists exactly for a present, non-empty key; `GenerateBookContent`, `SuggestBookTitles` and `SpeechRequest` state their no-client results under it |
| GeminiService.GenerateBookContent | services/geminiService.ts:12-41 | with no key, the fixed "key not found" message; on a thrown call, the fixed apology; otherwise `response.text`, which is missing only when the SDK left it missing |
| GeminiService.SuggestBookTitles | services/geminiService.ts:43-69 | `[]` with no key, on a thrown call, and on a missing or empty response text; with the key set and a non-empty text, exactly the list `JSON.parse` made of it, and `[]` where parsing fails |
| GeminiService.CharCodes | services/geminiService.ts:77-79 | one byte per character, byte `i` being the code of character `i` |
| GeminiService.Decode | services/geminiService.ts:73-81 | `decode` yields bytes exactly when `atob` accepts the input, and then yields the character codes of the binary string |
| GeminiService.ByteCodes | services/geminiService.ts:75-80 | the loop that fills the `Uint8Array` leaves in it the codes of the binary string, in order |
| GeminiService.DecodeEncodeRoundTrip | services/geminiService.ts:73-80 | decoding the RFC 4648 encoding of any byte string gives that byte string back |
| GeminiService.Int16Of | services/geminiService.ts:89 | the little-endian 16-bit two's-complement sample of two bytes: negative exactly when the high byte has its top bit set |
| GeminiService.Int16Samples | services/geminiService.ts:89 | the `Int16Array` view: one sample per byte pair, sample `k` made of bytes `2k` and `2k+1` |
| GeminiService.Normalize | services/geminiService.ts:96 | `v / 32768.0` lies in [-1, 32767/32768] and is exact: times 32768 it is `v` again |
| GeminiService.NormalizeFixedPoints | services/geminiService.ts:96 | 0 maps to 0, -32768 to -1 and 32767 to 32767/32768 |
| GeminiService.InterleavedIndexInRange | services/geminiService.ts:96 | position `i * numChannels + c` of frame `i`, channel `c`, lies inside the sample stream |
| GeminiService.PcmBuffer | services/geminiService.ts:83-100 | the conversion `decodeAudioData` performs: its error cases and shape are stated by `PcmBufferShape`, its samples by `PcmBufferSample` and `PcmBufferRange`, and `DecodeAudioData` is proved to compute it |
| GeminiService.PcmBufferShape | services/geminiService.ts:89-91 | conversion succeeds exactly for an even byte count, 1 to 32 channels and at least one frame; the buffer then has the given rate, `bytes / 2 / channels` frames and one array of that length per channel |
| GeminiService.PcmBufferSample | services/geminiService.ts:93-97 | channel `c`, frame `i` is the interleaved sample at `i * numChannels + c`, divided by 32768 |
| GeminiService.PcmBufferRange | services/geminiService.ts:96 | every output sample lies in [-1, 32767/32768] |
| GeminiService.MonoFrames | services/geminiService.ts:137-142 | a mono payload of 2N bytes, N at least 1, gives exactly N frames, frame `i` being sample `i` |
| GeminiService.DecodeAudioData | services/geminiService.ts:83-100 | the nested loops produce exactly the conversion result, including its error cases |
| GeminiService.SpeechText | services/geminiService.ts:112 | `safeText`, whose meaning `SpeechTextSpec` states |
| GeminiService.SpeechTextSpec | services/geminiService.ts:112 | the speech text is a prefix of the trimmed input of at most 2000 characters, the whole trimmed input when that fits, and empty exactly for blank input |
| GeminiService.SpeechRequest | services/geminiService.ts:103-118 | the model is called exactly when the key is set and the speech text is non-empty, and it is sent the speech text |
| GeminiService.PayloadAudio | services/geminiService.ts:137-142 | decoding the inline data into the mono 24 kHz buffer, stated by `PayloadAudioSpec` |
| GeminiService.PayloadAudioSpec | services/geminiService.ts:137-142 | a payload yields audio exactly when `atob` accepts it and it holds a whole, non-zero number of 16-bit samples; the audio is then the 24 kHz mono buffer of those samples, with one frame per sample |
| GeminiService.Narration | services/geminiService.ts:102-150 | `null` without a key, for blank text, on a thrown call and on missing or empty inline data; otherwise the buffer decoded from the payload |
| GeminiService.NarrationShape | services/geminiService.ts:137-142 | narration audio is always a non-empty buffer at 24 kHz |
| GeminiService.GenerateBookAudio | services/geminiService.ts:102-150 | the early returns and the decode steps produce exactly the request and the narration described above |
| Editor.PagesOfContent | components/Editor.tsx:30-35 | a loaded draft has at least one page |
| Editor.PagesOfContentIsSplit | components/Editor.tsx:31-35 | both branches of the loader agree with a plain split on the delimiter |
| Editor.NoDelimiterLoadsOnePage | components/Editor.tsx:33-34 | a draft without the delimiter loads as one page holding all of it |
| Editor.MarkerHasNoNewline | types.ts:33 | the marker holds no newline and sits between the two newline pairs of the delimiter |
| Editor.DelimiterHoldsMarker | types.ts:33 | every delimiter occurrence carries the marker two characters further on |
| Editor.MarkerFreeHasNoDelimiter | types.ts:33 | a page without the marker has no delimiter |
| Editor.FirstDelimiterFollowsPage | components/Editor.tsx:32 | after a marker-free page, the first delimiter is the one that follows the page |
| Editor.SplitAfterPage | components/Editor.tsx:32 | a marker-free page and its delimiter split off as one piece |
| Editor.ContentOfPages | components/Editor.tsx:41 | the saved content, the pages joined by the delimiter; `SplitJoinRoundTrip` and `SaveLoadRoundTrip` state that loading inverts it |
| Editor.SplitJoinRoundTrip | components/Editor.tsx:30-41 | splitting the joined pages gives the pages back whenever no page contains the marker |
| Editor.SaveLoadRoundTrip | components/Editor.tsx:30-41 | save then load restores the draft page for page, under the same condition |
| Editor.DelimiterFreeIsNotEnough | components/Editor.tsx:30-41 | keeping only the whole delimiter out of the pages is not enough: a first page equal to the delimiter without its last newline loads back as an empty page and a different second page |
| Editor.WithoutIndex | components/Editor.tsx:67 | `filter((_, i) => i !== skip)` drops exactly the element at `skip`, keeping the others in order |
| Editor.AIContext | components/Editor.tsx:84 | the context ends with the current page after a newline, and before it stands the last at most 500 characters of the previous page, or nothing on the first page |
| Editor.WithGenerated | components/Editor.tsx:87-88 | a truthy result is appended to the page after a blank line; otherwise the page stays |
| Editor.JoinEmptyIffOneEmptyPage | components/Editor.tsx:97 | the joined text is empty exactly for a single empty page |
| Editor.TitleSynopsis | components/Editor.tsx:97 | the synopsis sent for titles, stated by `TitleSynopsisSpec` |
| Editor.TitleSynopsisSpec | components/Editor.tsx:97-98 | the synopsis is the first 500 characters of the pages joined by spaces, and the fixed synopsis for one empty page |
| Editor.EditorState.constructor | components/Editor.tsx:12-37 | mount and the load effect: one empty page without a saved draft; otherwise the saved title (or `''`) and the pages of the saved content; index 0 |
| Editor.EditorState.Save | components/Editor.tsx:39-49 | hands over the title and the joined pages; that content loads back as the same pages when no page has the marker |
| Editor.EditorState.PageChange | components/Editor.tsx:51-55 | selects an index only when it is in range, and nothing changes otherwise |
| Editor.EditorState.AddPage | components/Editor.tsx:57-60 | appends exactly one empty page and selects it |
| Editor.EditorState.DeletePage | components/Editor.tsx:62-70 | one page becomes `['']`; otherwise exactly the current page is removed and the index becomes `max(0, index - 1)` |
| Editor.EditorState.UpdateCurrentPageContent | components/Editor.tsx:72-76 | replaces only the current page; the length and the other pages stay |
| Editor.EditorState.SetPrompt | components/Editor.tsx:241 | the prompt input's value |
| Editor.EditorState.SetShowPrompt | components/Editor.tsx:210-233 | the prompt box opens and closes |
| Editor.EditorState.SetTitle | components/Editor.tsx:128 | the title input's value |
| Editor.EditorState.AIWrite | components/Editor.tsx:78-93 | a blank prompt changes nothing and sends nothing; otherwise the context of the current page is sent, only the current page gains the generated text, and the prompt box closes and clears |
| Editor.EditorState.WriteFromPrompt | components/Editor.tsx:80-92 | the steps after the blank check, with the same result |
| Editor.EditorState.SuggestTitles | components/Editor.tsx:95-101 | sends the synopsis and stores the suggested titles |
| Editor.EditorState.PickSuggestedTitle | components/Editor.tsx:139 | the title becomes the suggestion and the suggestions close |
| Reader.LoopTicks | components/Reader.tsx:81 | `duration \|\| 1` in ticks is positive and equals the buffer's length for a non-empty buffer |
| Reader.StartOffset | components/Reader.tsx:81 | the offset of a non-negative position lies in [0, duration) and is the position itself inside the clip |
| Reader.StartOffsetWraps | components/Reader.tsx:81 | the offset differs from the position by whole loops of the clip |
| Reader.NarratedText | components/Reader.tsx:60 | narration is fetched exactly for present, non-empty content, and for that content |
| Reader.CachedNarration | components/Reader.tsx:58-73 | the buffer cached after a play: the one already cached, else the narration of truthy content, else none; `PlayAudio` and `ToggleAudio` state the cache by it |
| Reader.Player.constructor | components/Reader.tsx:12-20 | nothing created, cached or playing; positions zero |
| Reader.Player.StopAudio | components/Reader.tsx:32-42 | the source goes and playback stops; by its frame the position and the cached buffer stay |
| Reader.Player.PauseAudio | components/Reader.tsx:96-103 | no source, no change; otherwise the position becomes `now - startTime`, that is the time played plus the starting offset, and playback stops |
| Reader.Player.PlayAudio | components/Reader.tsx:44-94 | the context exists afterwards and is not created twice; a fetch happens only without a cached buffer, for truthy content; the cache becomes the old buffer or the fetched narration; playback runs exactly when a buffer is cached, started at the offset of the position, and `startTime` is untouched when nothing plays; the position is kept and loading ends |
| Reader.Player.LoadAndStart | components/Reader.tsx:48-93 | the same steps, apart from the loading flag |
| Reader.Player.EnsureContext | components/Reader.tsx:49-51 | the context exists afterwards and an existing one is kept |
| Reader.Player.FetchNarration | components/Reader.tsx:59-73 | fetches for truthy content only and caches the narration, a failure caching nothing |
| Reader.Player.StartPlayback | components/Reader.tsx:76-93 | a source for the cached buffer is playing, with `startTime = now - offset` |
| Reader.Player.ToggleAudio | components/Reader.tsx:105-111 | while playing it pauses, recording `now - startTime` and keeping the cache, the context and `startTime`; otherwise it plays, with every result of `PlayAudio`: the context exists and is not created twice, the cache is the old buffer or the fetched narration, playback runs exactly when a buffer is cached, from the offset of the position, `startTime` untouched when nothing plays |
| App.InitialState | App.tsx:96-103 | start-up: the five seeded books of App.tsx:12-91, in order, home tab, every category, light theme, no book open, settings closed |
| App.ToggleTheme | App.tsx:112-116 | the theme changes |
| App.ToggleThemeTwice | App.tsx:112-116 | toggling twice restores the theme |
| App.NewBook | App.tsx:118-132 | the new book: an empty title becomes "Sem Título", a missing cover falls back to the picsum URL, zero likes and comments, "Meus Livros", not liked |
| App.SaveBook | App.tsx:134-135 | exactly one new book is prepended to the unchanged library and the tab becomes home |
| App.Liked | App.tsx:142 | a book counts as liked only when its flag is `true`, a missing flag being falsy; `FlipLike` and `ToggleLikeTwice` are stated by it |
| App.FlipLike | App.tsx:142 | the flag becomes the negation of "liked", a missing flag becomes liked, and nothing else of the book changes |
| App.ToggleLike | App.tsx:139-146 | books with the id are flipped, the others stay, and length and order are kept |
| App.ToggleLikeTwice | App.tsx:138-147 | liking twice restores whether each book is liked |
| App.ToggleLikeState | App.tsx:138-147 | only the library changes |
| App.FilterCategory | App.tsx:152 | every kept book has the category |
| App.FilterCategoryAppend | App.tsx:152 | the filter distributes over concatenation, so it keeps the original order |
| App.FilterCategoryMembers | App.tsx:152 | a book is kept exactly when it is in the library with that category |
| App.FilteredBooks | App.tsx:150-152 | the whole library for "Todos", the filtered books otherwise |
| App.FeaturedBook | App.tsx:160 | defined exactly for a non-empty library, and then its first book |
| App.Reversed | App.tsx:225 | element `i` of the copy is element `n - 1 - i` of the library |
| App.ReversedTwice | App.tsx:225 | reversing the copy twice gives back the library |
| App.MostRead | App.tsx:225 | the section runs from the last book to the first |
| App.Apply | App.tsx:112-147 | no event shrinks the library |
| App.Run | App.tsx:112-147 | the state after a sequence of events, one handler at a time; `RunKeepsBooks` and `FeaturedBookAlwaysDefined` are stated over it |
| App.RunKeepsBooks | App.tsx:134-146 | no sequence of events shrinks the library |
| App.FeaturedBookAlwaysDefined | App.tsx:12-160 | from start-up on, the library holds at least five books, so the featured book always exists |
| FeedPost.AvatarSrc | components/FeedPost.tsx:20 | the author's avatar when truthy, otherwise the URL built from the author's name |
| FeedPost.LikesLabel | components/FeedPost.tsx:78 | the likes line, stated by `LikesLabelSpec` |
| FeedPost.LikesLabelSpec | components/FeedPost.tsx:78 | a missing or zero count gives the invitation; otherwise the count, readable back from the text, followed by " curtidas" |
| FeedPost.ReplaceLineBreaks | components/FeedPost.tsx:85 | same length; `\n` and `\r` become spaces and every other character stays |
| FeedPost.CaptionPreview | components/FeedPost.tsx:85 | the caption preview, stated by `CaptionPreviewSpec` |
| FeedPost.CaptionPreviewSpec | components/FeedPost.tsx:85 | the caption has at most 100 characters and no line break; it has the length of the content's first 100 characters and agrees with them except at line breaks, which read as spaces; missing or empty content gives "..." |
| FeedPost.CommentsShown | components/FeedPost.tsx:91 | `commentsCount \|\| 0`: the count when present, 0 otherwise |
| FeedPost.CommentsLabel | components/FeedPost.tsx:91 | the comments link text, stated by `CommentsLabelSpec` |
| FeedPost.CommentsLabelSpec | components/FeedPost.tsx:91 | the link reads "Ver todos os", the count (0 when missing), "comentários" |
| SettingsModal.Render | components/SettingsModal.tsx:12-67 | a closed overlay renders nothing; an open one checks "Claro" exactly when light and "Escuro" exactly when dark |
| SettingsModal.ExactlyOneChecked | components/SettingsModal.tsx:43-67 | exactly one option shows the check mark, the one matching the theme |
| SettingsModal.ChooseLight | components/SettingsModal.tsx:32 | the "Claro" button, toggling only from dark; stated by `ChooseSpec` |
| SettingsModal.ChooseDark | components/SettingsModal.tsx:52 | the "Escuro" button, toggling only from light; stated by `ChooseSpec` |
| SettingsModal.ChooseSpec | components/SettingsModal.tsx:32-52 | "Claro" leads to light and "Escuro" to dark from either theme; the active option changes nothing, and choosing twice is choosing once |
| BottomNav.RenderItem | components/BottomNav.tsx:25 | an item is active exactly when its id is the active tab's literal |
| BottomNav.Render | components/BottomNav.tsx:23-45 | one view per item, in table order |
| BottomNav.ItemIndex | components/BottomNav.tsx:13-19 | each tab has an item whose id is the tab's literal |
| BottomNav.ItemsAreTheTabs | components/BottomNav.tsx:13-19 | the item ids are distinct and are exactly the five tab literals |
| BottomNav.Click | components/BottomNav.tsx:31 | the tab a click reports, `item.id as NavTab`; stated by `ClickReportsOwnTab` |
| BottomNav.ClickReportsOwnTab | components/BottomNav.tsx:31 | clicking an item reports that item's own tab |
| BottomNav.ExactlyOneActive | components/BottomNav.tsx:25-42 | for every tab exactly its item is active, and only the active item shows its label and gets size 24 and stroke 2.5 (the others 22 and 2) |
| TopBar.Greeting | components/TopBar.tsx:11 | one of the three greetings |
| TopBar.GreetingByHour | components/TopBar.tsx:11 | hours 0 to 11 greet "Bom dia", 12 to 17 "Boa tarde", 18 to 23 "Boa noite"; 12 and 18 belong to the later greeting |
| TopBar.GreetingLine | components/TopBar.tsx:18 | the heading is the greeting of the hour followed by ", Leitor" |

## Left out

- JSX layout, CSS classes, icons, animations, and the whole of `BookCard` and `BookSection`. None of them computes anything stated here.
- Prompt wording and model names (services/geminiService.ts:17-29, 48-49, 117-127). The SDK calls are oracles: the model records whether a call is made and with which speech text, not the prompt strings.
- `JSON.parse` of the title list is the `parse` parameter. A parsed value that is not an array of strings is not distinguished.
- Web Audio effects: `resume`, `close` on unmount, `createBufferSource`, `connect`, `start`/`stop` and the empty `onended` handler (components/Reader.tsx:23-30, 53-56, 76-87). Only their effect on the refs and flags is modelled. The unmount cleanup (`stopAudio`, then closing the context) is not modelled.
- `createBuffer`'s sample-rate range is not checked. The only call uses 24000 Hz, which every browser accepts.
- Device time is integer ticks, one per sample frame at 24 kHz, so `currentTime` and `duration` are exact. Floating-point time is not modelled.
- Reader.Player.PlayAudio: requires `now >= clock`, a clock that never runs backwards, which the audio context guarantees and the source does not check.
- Reader.Player.PlayAudio: awaits are collapsed, so the handler runs as one step. The loading flag is raised on entry and lowered on every exit. Interleavings during an await are not modelled. That covers other handlers, and also an unmount while a play is suspended at `resume()` or `generateBookAudio` (components/Reader.tsx:55, 65). After such an unmount the cleanup has closed the context, yet the play goes on to cache the buffer and start a source (components/Reader.tsx:74-93). The button is disabled while loading (components/Reader.tsx:125), so a second play cannot overlap. A play cannot start while a source exists, because toggling pauses first.
- The frame count `dataInt16.length / numChannels` is rounded down, as `createBuffer` converts its length argument to an integer. Only the mono call is used, where the division is exact.
- Byte order is little-endian, the order of every platform the browser runs on, since `Int16Array` uses the platform's order.
- Strings are sequences of Unicode scalar values, while JavaScript counts UTF-16 code units. Lengths, `substring(0, 2000)`, `slice(-500)` and `substring(0, 100)` agree for text of the Basic Multilingual Plane.
- `trim()` white space is the set of code points listed in `JsCore.IsJsSpace`.
- Local storage and JSON: the draft (components/Editor.tsx:24-26, 43) and the theme (App.tsx:105-110, 115). The model starts from the parsed draft (`SavedDraft`) and returns what `handleSave` would store. The saved theme restored on start-up is not modelled.
- `Date.now()` and `new Date().getHours()` are parameters. `alert` (components/Editor.tsx:47, components/Reader.tsx:69) is left out because it only shows a message.
- `console.error` calls are left out because they only log.
- The `GenerationStatus` enum (types.ts:26-31) is unused by the core.
- React batching and stale closures. `handleAIWrite` writes into the pages captured before its await, and the model uses the pages at the start of the call, which is the same thing when nothing else runs during the await.
- App.ToggleLikeTwice: states that "liked" is restored, not the raw flag, because a missing `isLiked` becomes `false` after two toggles.
- TopBar.GreetingByHour: requires an hour in 0..23, the range of `getHours()`.
- Reader.StartOffset: the range [0, duration) of the offset is stated for non-negative positions only, because the invariant keeps `pauseTime` non-negative; the wrap-around itself (`StartOffsetWraps`) holds for every position.
- The save-then-load round trip needs pages free of the marker `<!-- PAGE_BREAK -->`. `Editor.DelimiterFreeIsNotEnough` shows that keeping only the whole delimiter out is not enough. The editor does not prevent either, so a page that holds the marker can split into several pages on reload.

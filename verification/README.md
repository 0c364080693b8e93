# Ultra Studio video-prompt core, modelled in Dafny

This project models the text-processing core of `main.py`. That file is a Streamlit app: it turns a character description and a dialogue script into one video-generation prompt per clip. The core has four parts.

- **Segmenter** (`segmenter.dfy`). `split_dialogue` cuts the script into sentences at `.`, `!` and `?`. It then packs whole sentences greedily into clips of at most `max_words` words. The terminators themselves are separators, so no clip keeps a `.`, `!` or `?` (`SplitDialogueClipsBounded`). A sentence longer than the limit first flushes the pending clip. Then it is cut into windows of `max_words` words. The fold is written as the code has it: an accumulator of finished clips, the pending clip and its word count. It is proved equal to an accumulator-free reference, `Plan`. `Plan` lists which sentences share a clip and which sentence stands alone.
- **Styles** (`styles.dfy`). `generate_video_prompt` takes the text after the first space of the selected menu label and looks it up in the seven-row table of (rules, camera, lighting) profiles. A name missing from the table gets the "Strict Realism (Default)" row. The result is written into the fixed prompt template. The template is generic over its literal frame, so the properties about where each field appears hold for any frame. They are then applied to the real one.
- **Errors** (`errors.dfy`). `safe_generate` turns an exception's text into one of four messages. The tests run in order:
  - a case-sensitive `429` / `ResourceExhausted`;
  - then `quota`, in any case;
  - then `invalid`, in any case;
  - otherwise a generic message that quotes the text.
- **Session** (`session.dfy`). This is the per-session state: the prompt log, the call counter and the last error. It covers initialisation, a guarded model call, the auto-save rule, "Clear History", and the loop that generates every clip. The model call is a parameter `call: string -> Outcome`. The outcome is one of three: a reply whose text could be read, an exception from the call, or an exception while reading a reply the call had already counted. The auto-save rule tests its result for "Error" only. So the rate-limit, quota and invalid-key messages are saved to the log as if they were prompts (`FailureSaved`). The model keeps this behaviour as the code has it. The four messages are spelled in short pieces in `errors.dfy`, but they are the source's text character for character.

`text.dfy` holds the models of the Python string operations the core uses: `strip`, `split()`, `split(sep)`, `split(" ", 1)`, `replace` on one character, `join`, `lower`, `in` and `str(n)`. `option.dfy` holds `Option`.

Default arguments are not modelled as such: `max_words=15` of `split_dialogue` and `clip_number=1` of `generate_video_prompt` are ordinary parameters here, since every call site in `main.py` passes both.

## Model

| member | source | states |
|---|---|---|
| Segmenter.SplitDialogueKeepsWords | main.py:405-437 | the clips' words, read in order, are exactly the words of the text with `.`, `!`, `?` read as separators: no word is lost, duplicated or reordered |
| Segmenter.SplitDialogueClipsBounded | main.py:416-433 | every clip, hard-split windows included, has between 1 and `max_words` words and contains no `.`, `!` or `?` |
| Segmenter.SplitDialogueEmpty | main.py:401-406 | the result is empty exactly when the text has no word (empty, blank or punctuation-only input) |
| Segmenter.SplitDialogue | main.py:401-402 | an empty text yields no clips |
| Segmenter.SplitDialogueIsPlan | main.py:408-439 | the accumulator loop emits exactly the clips of the greedy sentence plan, rendered clip by clip |
| Segmenter.FoldMatchesPlan | main.py:412-437 | from every reachable accumulator state (a pending clip is non-empty exactly when its count is positive, and the count is its word count), the loop plus the final flush produces the pending clip (if any) followed by the plan of the remaining sentences |
| Segmenter.PlanSources | main.py:426-433 | the plan covers every sentence exactly once and in order; a sentence is never split between packed clips |
| Segmenter.PlanGroups | main.py:416-433 | every packed run fits in `max_words`, every stand-alone sentence is longer than it, and a run is closed only because the next sentence would push it past the limit (reaching exactly the limit does not close it) |
| Segmenter.FitMaximal | main.py:427-433 | the run taken into a clip is the longest prefix that fits: its words stay within the limit, and one more sentence would exceed it |
| Segmenter.LongSentenceFlushes | main.py:416-424 | an over-long sentence is a hard break: the pending clip (if any) is emitted first, then the sentence's windows, and the following sentences give the clips they would give on their own |
| Segmenter.ExpectedFlushLong | main.py:416-424 | when a clip is pending and the next sentence is over-long, the code's step (emit the pending clip, then the sentence's windows) keeps the loop on the plan's clip list |
| Segmenter.ExpectedOverflow | main.py:427-430 | when the next sentence fits alone but not into the pending clip, emitting the pending clip and opening a new one with that sentence keeps the loop on the plan's clip list |
| Segmenter.ChunksShape | main.py:423-424 | the windows of `range(0, n, m)` cover the words in order, each has 1 to `m` words, and all but the last have exactly `m` |
| Segmenter.ChunksCount | main.py:423-424 | a sentence of `n` words gives ceil(n / m) windows |
| Segmenter.WindowsOfSentence | main.py:423-424 | the windows of an over-long sentence keep its words in order and each is a valid clip |
| Segmenter.PackedClip | main.py:428-437 | a packed run joined with spaces has exactly the run's words, at least one and at most `m` |
| Segmenter.SentencesKeepWords | main.py:405-406 | splitting into stripped, non-empty sentences keeps exactly the text's words in order |
| Segmenter.Sentences | main.py:405-406 | every sentence is non-empty, stripped and free of `.`, `!`, `?` |
| Segmenter.Normalise | main.py:405 | every `!` and `?` becomes `.`, every other character is kept, and the length is unchanged |
| Text.StripBlank | main.py:406 | `s.strip()` is empty exactly when `s` is all whitespace |
| Text.SplitOnJoinRoundTrip | main.py:405 | `sep.join(s.split(sep)) == s` |
| Text.SplitWordsJoin | main.py:413-418 | joining strings with a whitespace separator and splitting again gives the concatenation of their words |
| Text.NatToStringDigits | main.py:395 | `str(n)` is all decimal digits, has no leading zero unless `n` is 0, and reads back as `n` |
| Styles.StyleName | main.py:317 | no space: the label itself; otherwise the label is a space-free head, one space, then the result |
| Styles.StyleNameAfterPrefix | main.py:317 | cutting at the first space gives back whatever followed a space-free head |
| Styles.ParseName | main.py:320-359 | the table lookup finds a row exactly when the name is that row's key |
| Styles.ParseUnknown | main.py:359 | the table lookup misses exactly the names that are no row's key |
| Styles.CinematicMovieTail | main.py:317 | the bare key "Cinematic Movie" is cut to "Movie" |
| Styles.NameInjective | main.py:320-356 | the seven keys are distinct |
| Styles.LookupKnown | main.py:359 | a key selects its own row |
| Styles.LookupUnknown | main.py:359 | a name that is no key gets the "Strict Realism (Default)" row |
| Styles.LabelResolves | main.py:168-176 | every menu label's extracted name is its row's key, so each menu choice resolves to its own row |
| Styles.BareNameFallsBack | main.py:317-359 | every key with a space in it, given bare instead of as its menu label, loses its first word and falls back to the default row |
| Styles.PromptShowsFields | main.py:361-389 | the prompt holds `**CLIP #n**`, the description under its heading, the dialogue in double quotes, the extracted style name and the resolved rules, camera and lighting, each under its heading |
| Styles.LabelledPrompt | main.py:317-375 | a menu label puts its own key and its own row's rules into the prompt |
| Styles.UnknownStyleShown | main.py:317-372 | a space-free name that is no key is still shown verbatim under VISUAL STYLE |
| Styles.UnknownStyleDefaults | main.py:359-375 | whenever the extracted name is no key, the prompt carries the default row's rules |
| Styles.TemplateQuotesDialogue | main.py:368-369 | in any frame, the dialogue appears verbatim between two quote marks |
| Styles.TemplateShowsRules | main.py:374-375 | in any frame, the rules follow the rules heading |
| Errors.RateLimitFirst | main.py:278-279 | any text containing `429` or `ResourceExhausted` gets the rate-limit message, whatever else it mentions |
| Errors.QuotaAnyCase | main.py:280-281 | `quota` in any letter case selects the quota message unless a rate-limit marker is present |
| Errors.InvalidAnyCase | main.py:282-283 | `invalid` in any letter case selects the invalid-key message once the two earlier tests fail |
| Errors.RateLimitCaseSensitive | main.py:278 | the lower-case spelling `resourceexhausted` is not a rate limit and falls through to the generic message |
| Errors.ClassifyLowerCase | main.py:280-285 | lower-casing a text that is no rate limit either way keeps its class |
| Errors.OtherQuotesError | main.py:284-285 | the generic message quotes the exception text in full |
| Errors.SpecificMessagesFixed | main.py:278-283 | the three specific messages depend only on the class, not on the text |
| Errors.MessageMentionsError | main.py:278-285 | the message contains "Error" exactly when the exception fell through to the generic branch |
| Session.SafeGenerate | main.py:261-285 | the log is untouched; a reply increments the call count, keeps the last error and returns its text stripped; an exception records its text as the last error and returns that failure's message, which says "Error" exactly in the generic case; the count rises only when the exception came from reading a reply that had already returned |
| Session.EntryRoundTrip | main.py:395 | a log line `Clip n:\nresult` reads back as exactly `n` and `result` |
| Session.AutoSave | main.py:394-395 | the log grows by one entry exactly when saving is enabled and the result is non-empty and free of "Error"; older entries and the counters are untouched |
| Session.AutoSaveRecords | main.py:394-395 | a saved result is the log's last line and reads back as its clip number and text |
| Session.Clear | main.py:221-223 | the log is emptied and the call count is zeroed; the last error is kept |
| Session.ClearIdempotent | main.py:221-223 | clearing twice is clearing once, and a clear forgets any earlier save |
| Session.FailureSaved | main.py:391-395 | for a failed call: the message is that failure's message, the count rises only when the reply had already returned, the error is recorded, and the message is saved exactly when saving is on and the failure is a rate limit, quota or invalid key |
| Session.ReplySaved | main.py:391-395 | for a reply: the stripped text is returned and counted, and it is saved exactly when saving is on and it is non-empty and free of "Error" |
| Session.GenerateAll | main.py:645-655 | one result per clip; the call count rises by at most one per clip; the log grows by at most one entry per clip and keeps its old entries as a prefix |

## Left out

- The Streamlit UI is not modelled: CSS, widgets, progress bar, expanders, download buttons and metrics. This includes the display test at main.py:659, which only picks `st.warning` or `st.code`.
- The Gemini calls are not modelled: `model.generate_content`, `genai.configure` and `analyze_image`. The model's answer is the `Outcome` given to `SafeGenerate`, or the `call` function given to `GenerateVideoPrompt` and `GenerateAll`.
- `time.sleep`, the spinner, `datetime` in export file names, and the floating-point progress fraction are not modelled. They have no effect on the values modelled.
- The other prompt builders are not modelled: the image-analysis prompt, script polishing, batch and other tabs. The export join of the log is not modelled either.
- Text.Lower: only ASCII letters are lower-cased. Python's `str.lower()` also folds non-ASCII letters. The words tested for ("quota", "invalid") are ASCII, but a non-ASCII letter that Python folds to one of their letters is not modelled.
- Segmenter.SplitDialogue: requires `max_words >= 1`. The app's slider only offers 10 to 30. For 0, the source's `range(0, n, 0)` raises on the first long sentence. A negative limit makes every sentence long, and the empty range then drops it.
- Session.GenerateAll: states bounds and the log-prefix property only. The exact per-clip behaviour is in `FailureSaved` and `ReplySaved`.
- Styles.UnknownStyleShown: requires a space-free name. For a name with a space, what is shown is the text after the first space (`PromptShowsFields`).
- Session.State: `api_calls_count` is unbounded (`nat`). Python integers do not wrap.

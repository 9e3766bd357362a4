# RenderAI: the typewriter placeholder and the image request, in Dafny

RenderAI is a one-page front end. The user types a prompt, submits it, and the page shows the image an image-generation service returns. Two pieces of its `App` component hold state logic, and this project models both:

- **The typewriter placeholder.** While the prompt field is empty, its placeholder cycles through four example phrases. A timer tick types the current phrase out one character at a time, pauses, deletes it one character at a time, and then moves on to the next phrase, wrapping around after the last.
  - `Typewriter` models the tick as a pure function `Step` over the state `(index, text, deleting)`. `Step` returns the new state, the published placeholder and the delay before the next tick (1000, 100 or 50 ms). The module also holds the invariants and the full-cycle lemmas.
  - `TypewriterEffect.Animation` holds the same variables as mutable fields. Its `Type` method updates them in place the way the tick does and is proved equal to `Step`.
- **The image request.** Submitting raises a loading flag and sends one query (the prompt, one image, 512x512). When the query settles, the flag is cleared. On success, the URL of the first returned image becomes the result.
  - `ImageRequest` models the two halves of the handler as `Submit` and `Settle`. The class `ImageForm` performs them in place.
  - `Replay` runs any interleaving of submissions and settlements. The module proves what such an interleaving leaves behind.

## Model

| member | source | states |
|---|---|---|
| `Typewriter.Substring` | src/App.tsx:34-36 | `substring(0, end)` gives a prefix of the phrase. Its length is `end` clamped to the range 0 .. length of the phrase. |
| `Typewriter.Step` | src/App.tsx:30-51 | One tick keeps the index a valid position. The new text is a prefix of both the old phrase and the new one. The published placeholder equals the new text. The index either stays or advances to `(index + 1) mod n`, n being the number of phrases. The delay is 1000, 100 or 50. |
| `Typewriter.Run` | src/App.tsx:30-53 | Repeated ticks keep the index within the phrase list. After at least one tick, the text is a prefix of the current phrase. |
| `Typewriter.TypingTick` | src/App.tsx:35-36 | A typing tick on a proper prefix appends exactly the next character of the phrase and keeps the index. |
| `Typewriter.DeletingTick` | src/App.tsx:33-34 | A deleting tick on a non-empty prefix drops exactly its last character. |
| `Typewriter.PhraseCompleted` | src/App.tsx:41-43 | A typing tick switches to deleting if and only if the new text is the whole phrase. The index then stays and the delay is 1000. |
| `Typewriter.TextEmptied` | src/App.tsx:44-47 | A deleting tick switches to typing if and only if the new text is empty. The index then becomes `(index + 1) mod n`, n being the number of phrases and the delay is 100. |
| `Typewriter.NoBoundary` | src/App.tsx:48-49 | Away from both ends, the mode and the index are unchanged. The delay is 50 when deleting and 100 when typing. |
| `Typewriter.DelayMeaning` | src/App.tsx:41-50 | The delay is 1000 exactly after a phrase is completed, 50 exactly when deleting continues, and 100 exactly when the next tick types. |
| `Typewriter.LengthChangesByOne` | src/App.tsx:33-37 | On a reachable state the clamp of `substring` never takes effect. Each tick changes the text's length by exactly +1 when typing or -1 when deleting. |
| `Typewriter.StepPreservesInv` | src/App.tsx:30-51 | With non-empty phrases a tick preserves the invariant: the index is valid, the text is a prefix of the phrase, a deleting state has text left, and a typing state has characters left to type. |
| `Typewriter.InitialInv` | src/App.tsx:26-28 | The initial state `(0, "", false)` satisfies the invariant. |
| `Typewriter.RunPreservesInv` | src/App.tsx:30-51 | Any number of ticks from an invariant state keeps the invariant. |
| `Typewriter.TypeOut` | src/App.tsx:35-43 | Typing from the first `k` characters reaches the whole phrase, now deleting, after as many ticks as the phrase has characters beyond `k`. |
| `Typewriter.DeleteAll` | src/App.tsx:33-47 | Deleting from the first `k > 0` characters reaches the empty text of the next phrase, now typing, after `k` ticks. |
| `Typewriter.FullCycle` | src/App.tsx:30-51 | From `(i, "", false)`, after twice the length of phrase `i` in ticks, the state is `((i + 1) mod n, "", false)`, n being the number of phrases. |
| `Typewriter.StartUp` | src/App.tsx:26-28 | The animation starts at `(0, "", false)` with a first delay of 1000. Every state it reaches on the four phrases satisfies the invariant. |
| `Typewriter.RoundTrip` | src/App.tsx:12-17 | On the four phrases, the animation returns to its initial state after 196 ticks. |
| `TypewriterEffect.Animation.constructor` | src/App.tsx:25-53 | Mounting starts the animation at `(0, "", false)` with the first tick scheduled after 1000 ms. The placeholder state starts empty, as it is initialised at line 7. |
| `TypewriterEffect.Animation.Type` | src/App.tsx:30-51 | Updating the variables in place leaves them equal to `Step` of the old state. The placeholder and the pending delay are those `Step` gives. |
| `ImageRequest.Submit` | src/App.tsx:75-81 | Submission raises the loading flag and keeps the result. It issues a query carrying the prompt, a count of 1 and the size "512x512". |
| `ImageRequest.Settle` | src/App.tsx:82-92 | Settling always clears the loading flag. The result becomes the first image's URL when an image was delivered. Otherwise, on a failure or an empty list, it stays unchanged. |
| `ImageRequest.LastDelivered` | src/App.tsx:82-83 | Finds the last settlement that delivered an image. No later settlement delivers one. |
| `ImageRequest.ReplayState` | src/App.tsx:73-94 | For any interleaving of submissions and settlements, the result is the URL of the last query to deliver (or the initial result). The form is loading exactly when the latest event was a submission. |
| `ImageRequest.OverlappingSubmissions` | src/App.tsx:73-94 | With two requests in flight, the first settlement clears the flag while the second is pending. The last to settle decides the result. |
| `ImageRequest.PineappleExample` | src/App.tsx:75-83 | A success for "A pineapple in the ocean" ends with loading false and result "https://example.com/img.png". A later failure keeps that result. |
| `ImageRequest.ImageForm.constructor` | src/App.tsx:9-10 | The form starts with an empty result and is not loading. |
| `ImageRequest.ImageForm.Begin` | src/App.tsx:74-81 | The in-place update up to the awaited call equals `Submit`. |
| `ImageRequest.ImageForm.Finish` | src/App.tsx:82-92 | The in-place update after the call equals `Settle`. This includes the thrown read of `data[0]` on an empty list, which the catch handles like a failure. |

## Left out

- Timers: `setTimeout`, `clearTimeout`, the `typingTimeRef` handle and the cleanup on unmount are the event loop's runtime. The model returns the delay of the next tick as a number, and `Animation.pendingDelay` records the delay of the scheduled timer.
- The image-generation client: its construction, the API key read from the environment and the network call are a vendor SDK and I/O. The call's answer is the input `Outcome`.
- The three diagnostic branches of the catch only write to the console. Every kind of failure is therefore one `Failed` outcome.
- An image descriptor without a URL (the non-null assertion `url!`) is not modelled: every `Image` carries a URL.
- `handleChange` is a one-line passthrough of the input's value into the prompt state. The prompt is a parameter of `Submit` and `Begin`.
- The React state hooks, their asynchronous update semantics, and all rendering are not part of this model.
- Strings are sequences of Dafny characters. JavaScript counts lengths in UTF-16 code units. All four phrases are ASCII, where the two agree.

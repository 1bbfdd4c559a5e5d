# Poe-Lurker clipboard lurker, modelled in Dafny

This project models `ClipboardLurker`, the part of Poe-Lurker that captures
Path of Exile item tooltips and trade whispers from the Windows clipboard.
The lurker does three things:

- **Clipboard-change handler.** On every clipboard-change notification, the
  lurker drops empty text and non-text content. It also drops text equal to
  the last text it saw (`_lastClipboardText`). It remembers any other text and
  raises `NewOffer` with that text when the game library's
  `TradeEvent.IsTradeMessage` accepts it.
- **Item capture.** A left click with Shift and Control held starts a capture,
  but only while the search setting is on and the user's pledge is confirmed.
  A capture makes up to two attempts. Each attempt simulates Ctrl+C, waits
  20 ms, reads the clipboard and hands the text to the game library's
  `ItemParser.Parse`. A null item ends the capture at once. An unidentified
  item waits 50 ms and tries again. An identified item is raised through
  `Newitem`, and the clipboard is then cleared.
- **Clipboard access with retries.** Every clipboard read or clear makes at
  most three calls, with a 200 ms wait after each call that throws. A read in
  which all three calls fail returns the empty string.

The model has four modules:

- `Events` (events.dfy) holds the values the lurker works with. These are the
  parsed item (`PoeItem`), the operating system's answer to one clipboard call
  (`Access`), and the effects the lurker raises or performs (`Event`). The
  lurker records these effects in an append-only log. The invariant the log
  keeps is `Sound`: items only when identified, offers only for trade messages.
- `ClipboardRetry` (retry.dfy) describes the bounded retry of
  `GetClipboardText` and `ClearClipboard` as functions of a stream of
  operating-system answers. `os(k)` is the answer to the lurker's `k`-th
  clipboard call, either `Denied` (the call throws) or `Granted(text)`.
- `CaptureSpec` (capture.dfy) describes what the lurker does as functions of
  `os`, the item parser and the trade-message test. It covers the item capture
  (`Capture`, built from `AttemptLoop`), the clipboard-change handler
  (`OnClipboardChanged`) and the click gate (`TriggersCapture`). The lemmas
  about these functions state the lurker's guarantees.
- `Lurker` (lurker.dfy) contains the class `ClipboardLurker`. It has the
  fields `lastClipboardText`, `isPledging`, `accesses` (the index of its next
  clipboard call) and `log`. Its methods follow the C# methods statement by
  statement: the `while (retryCount != 0)` loops, the two-attempt `for` loop
  with its `return`, `continue` and `break`, and the early returns of the
  handlers. Each method that touches the log or the clipboard is proved to
  change `log` and `accesses` exactly as the corresponding `CaptureSpec` or
  `ClipboardRetry` function says. Every method requires and preserves
  `Valid()`, and the constructor establishes it.

The item parser and the trade-message test come from a library whose source
is not part of this model. The class takes them as uninterpreted functions:
`parse: string -> Option<PoeItem>`, where `None` stands for a null item, and
`isTradeMessage: string -> bool`. The model looks only at the item's
`Identified` flag.

The documented intent of the component differs from the code on three
points, and the model follows the code in each:

- **Read after three denials.** The documented intent is that a read whose
  three tries are all denied surfaces an access-denied error.
  `GetClipboardText` instead returns the `string.Empty` it started with
  (src/Lurker/ClipboardLurker.cs:146,168). `Fetched` therefore yields `""`,
  and `AllDenied` proves it.
- **What a retry repeats.** The documented intent is that a retry re-reads
  the clipboard. In the code, each of the two attempts simulates Ctrl+C again
  before it reads (src/Lurker/ClipboardLurker.cs:234-236, 266). The model
  does the same, and `CaptureCopies` counts the keystrokes.
- **Trade text on the gesture path.** The documented intent is that the
  gesture path classifies the copied text, and that for trade-shaped text it
  raises the trade offer and clears the clipboard. In the code, `ParseItem`
  and `GetItemInClipboard` only call `ItemParser.Parse` and never raise
  `NewOffer` (src/Lurker/ClipboardLurker.cs:230-258, 264-268). Only the
  clipboard-change handler raises offers. `CaptureRaises` proves that a
  capture never logs an `Offer`.

## Model

| member | source | states |
|---|---|---|
| `Lurker.ClipboardLurker.constructor` | src/Lurker/ClipboardLurker.cs:31-63 | a new lurker has empty remembered text and an unconfirmed pledge; it starts by clearing the clipboard with the three-try retry, and that run is its whole log |
| `Lurker.ClipboardLurker.PledgeChecked` | src/Lurker/ClipboardLurker.cs:57-62 | the pledge check's answer becomes `isPledging`, nothing else changes, and the log invariant is kept |
| `Lurker.ClipboardLurker.MouseClick` | src/Lurker/ClipboardLurker.cs:124-138 | a click runs exactly one capture when the gate lets it through; otherwise it changes neither the log nor the clipboard-call count |
| `Lurker.ClipboardLurker.GetClipboardText` | src/Lurker/ClipboardLurker.cs:144-169 | the loop returns the text of the first granted call, or `""` after three denials, and it logs each call followed by a 200 ms wait when the call was denied; the log invariant is kept |
| `Lurker.ClipboardLurker.ClearClipboard` | src/Lurker/ClipboardLurker.cs:174-196 | the clear makes the same bounded run of at most three calls, each logged with its outcome, and keeps the log invariant |
| `Lurker.ClipboardLurker.ClipboardChanged` | src/Lurker/ClipboardLurker.cs:204-225 | the new remembered text and the appended log entries are exactly those of `OnClipboardChanged`, and the log invariant is kept |
| `Lurker.ClipboardLurker.GetItemInClipboard` | src/Lurker/ClipboardLurker.cs:264-269 | an attempt appends Ctrl+C, a 20 ms wait and a retrying read, and returns the parser's result for the text read; the log invariant is kept |
| `Lurker.ClipboardLurker.ParseItem` | src/Lurker/ClipboardLurker.cs:230-258 | the attempt loop and the raise-then-clear append exactly the entries of `Capture`, and the log invariant is kept |
| `ClipboardRetry.TriesBounds` | src/Lurker/ClipboardLurker.cs:149-162 | a run makes between 1 and 3 calls, and a run that stops before its third call stops because its last call was granted |
| `ClipboardRetry.FirstGrantWins` | src/Lurker/ClipboardLurker.cs:149-162 | if `j` denials precede a granted call, the run makes exactly `j + 1` calls, returns that call's text and waits `j` × 200 ms (so 2 denials and then a grant wait 400 ms) |
| `ClipboardRetry.AllDenied` | src/Lurker/ClipboardLurker.cs:146-168 | when every call is denied, the run makes all three calls, none of them granted, waits 600 ms in all, and the read returns `""` rather than an error |
| `ClipboardRetry.RetryTraceEvents` | src/Lurker/ClipboardLurker.cs:149-162 | a retry run logs only clipboard calls of its own kind and 200 ms waits, one call per try, and raises no event |
| `ClipboardRetry.RetrySound` | src/Lurker/ClipboardLurker.cs:174-196 | a retry run keeps the log invariant |
| `CaptureSpec.AttemptLoop` | src/Lurker/ClipboardLurker.cs:233-249 | the attempt loop returns only with a null item, ends with an item whenever it ran at all, and never moves the clipboard-call index backwards |
| `CaptureSpec.CaptureCases` | src/Lurker/ClipboardLurker.cs:232-258 | the five ways a capture can go: null on the first attempt; identified on the first attempt; unidentified then null; unidentified twice (two 50 ms waits, no raise, no clear); unidentified then identified (raise the second item, then clear) |
| `CaptureSpec.AttemptFacts` | src/Lurker/ClipboardLurker.cs:264-269 | an attempt starts with the simulated Ctrl+C, simulates it once, reads with the retry, never clears and raises nothing |
| `CaptureSpec.CaptureRaises` | src/Lurker/ClipboardLurker.cs:242-256 | a capture raises at most one item, only an identified one, and that item is the last attempt's result; it raises nothing when the first attempt is null, or when the first is unidentified and the second is null or unidentified; it never raises an offer |
| `CaptureSpec.CaptureSound` | src/Lurker/ClipboardLurker.cs:251-256 | a capture's log entries satisfy the log invariant |
| `CaptureSpec.CaptureCopies` | src/Lurker/ClipboardLurker.cs:233-236 | a capture simulates Ctrl+C twice exactly when its first attempt parsed an unidentified item, and once otherwise, so at most twice |
| `CaptureSpec.CaptureOrder` | src/Lurker/ClipboardLurker.cs:256-268 | within a capture every clipboard read comes after a simulated Ctrl+C, every clear comes after the `Newitem` raise, and a capture that clears has raised exactly one item |
| `CaptureSpec.OnClipboardChanged` | src/Lurker/ClipboardLurker.cs:204-225 | non-text, null or empty content, or text equal to the remembered text: nothing changes and nothing is raised; other text is remembered whether or not it is a trade message; exactly one `Offer` with the unmodified text is raised iff the text is new and a trade message; no item is ever raised |
| `CaptureSpec.DuplicateIgnored` | src/Lurker/ClipboardLurker.cs:214-217 | the same notification twice in a row: the second changes nothing and raises nothing, so the pair raises at most one offer |
| `CaptureSpec.RepeatsIgnored` | src/Lurker/ClipboardLurker.cs:214-217 | once a notification's text is remembered, any number of repeats of it leave the state alone and raise nothing |
| `CaptureSpec.RepeatsRaiseAtMostOnce` | src/Lurker/ClipboardLurker.cs:214-223 | any run of identical consecutive notifications raises at most one offer |
| `CaptureSpec.TriggerNeedsAllFive` | src/Lurker/ClipboardLurker.cs:128-136 | the click gate's nested test lets a capture through exactly when the search setting, the pledge, the left button, Shift and Control all hold |

## Left out

- Operating-system plumbing is replaced by inputs. This covers the global mouse and keyboard hooks (`Hook.GlobalEvents`), the clipboard monitor (`SharpClipboard`), the input simulator and `Native.IsKeyPressed`. Clicks and notifications become method calls, the key states become arguments of `MouseClick`, and Ctrl+C becomes a `CopyKeystroke` log entry.
- Threads and timing are not modelled: the STA thread that runs each clipboard loop, `Task.Run`, `async void` and the real waits. The 20 ms, 50 ms and 200 ms waits are `Sleep` log entries. Two captures started by quick clicks can interleave in the source; the model runs each capture to its end.
- The clipboard is a stream of answers (`os`) rather than shared state. Reads and clears draw on the same stream in call order. The model does not capture that a clear changes what a later read returns, or that a clear raises a change notification of its own.
- The pledge check over the network (src/Lurker/ClipboardLurker.cs:57-62, 111-117) is not modelled. Only its answer is, through `PledgeChecked`.
- Disposal and unsubscription (src/Lurker/ClipboardLurker.cs:86-103) are not modelled. They release resources and carry no logic.
- In release builds, the click handler is subscribed only through the `#if (!DEBUG)` directive (src/Lurker/ClipboardLurker.cs:53-55). The model assumes a release build.
- `ItemParser.Parse` and `TradeEvent.IsTradeMessage` are uninterpreted parameters. Their grammars are not part of this model, so no property depends on what text they accept.
- The model logs `NewOffer` and `Newitem` whether or not anyone subscribed to the C# events. The source's `?.Invoke` skips a raise that has no subscribers.
- BuildManagerViewModel.cs, UpdateViewModel.cs and Lurker.Gem/Program.cs are not part of this model. They contain presentation, file-system and download code outside the capture pipeline.

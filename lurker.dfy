/** The clipboard lurker itself: the object that reacts to mouse clicks and
    clipboard-change notifications, simulates Ctrl+C, reads and clears the
    clipboard with retries, and raises NewOffer and Newitem. Its effects are
    recorded in the append-only `log`; each method is proved to append exactly
    what the matching function of ClipboardRetry or CaptureSpec describes. */
module Lurker {
  import opened Events
  import opened ClipboardRetry
  import opened CaptureSpec

  class ClipboardLurker {
    /** The operating system's answers to this object's clipboard calls. */
    const os: nat -> Access
    /** The item parser of the game library (None stands for null). */
    const parse: string -> Option<PoeItem>
    /** The trade-message test of the game library. */
    const isTradeMessage: string -> bool

    /** The last non-empty text seen by the clipboard-change handler. */
    var lastClipboardText: string
    /** Whether the user's pledge was confirmed. */
    var isPledging: bool
    /** How many clipboard calls this object has made so far. */
    var accesses: nat
    /** Everything this object raised or did, in order. */
    var log: seq<Event>

    /** Items are raised only when identified; offers only for trade messages. */
    ghost predicate Valid()
      reads this
    {
      Sound(log, isTradeMessage)
    }

    /** The constructor clears the clipboard before anything else; the pledge
        flag starts false until the pledge check answers. */
    constructor (os: nat -> Access, parse: string -> Option<PoeItem>, isTradeMessage: string -> bool)
      ensures this.os == os && this.parse == parse && this.isTradeMessage == isTradeMessage
      ensures lastClipboardText == "" && !isPledging
      ensures accesses == Tries(os, 0, MaxTries)
      ensures log == RetryTrace(os, 0, MaxTries, Clear)
      ensures Valid()
    {
      this.os := os;
      this.parse := parse;
      this.isTradeMessage := isTradeMessage;
      lastClipboardText := "";
      isPledging := false;
      accesses := 0;
      log := [];
      new;
      ClearClipboard();
    }

    /** The pledge check answered `pledging` (at start-up or after the
        settings were saved). */
    method PledgeChecked(pledging: bool)
      requires Valid()
      modifies this`isPledging
      ensures Valid()
      ensures isPledging == pledging
    {
      isPledging := pledging;
    }

    /** A mouse click: a capture runs exactly when the gate lets it through. */
    method MouseClick(searchEnabled: bool, button: MouseButton, shiftDown: bool, controlDown: bool)
      requires Valid()
      modifies this`accesses, this`log
      ensures Valid()
      ensures TriggersCapture(searchEnabled, isPledging, button, shiftDown, controlDown) ==>
        var c := Capture(os, parse, old(accesses));
        log == old(log) + c.trace && accesses == c.next
      ensures !TriggersCapture(searchEnabled, isPledging, button, shiftDown, controlDown) ==>
        log == old(log) && accesses == old(accesses)
    {
      if !searchEnabled || !isPledging || button != Left {
        return;
      }
      if shiftDown && controlDown {
        ParseItem();
      }
    }

    /** Reads the clipboard's text: the first granted call's text, or the
        empty string once all three calls were denied. */
    method GetClipboardText() returns (text: string)
      requires Valid()
      modifies this`accesses, this`log
      ensures Valid()
      ensures text == Fetched(os, old(accesses), MaxTries)
      ensures accesses == old(accesses) + Tries(os, old(accesses), MaxTries)
      ensures log == old(log) + RetryTrace(os, old(accesses), MaxTries, GetText)
    {
      text := "";
      var retryCount := MaxTries;
      ghost var k0, log0, tries := accesses, log, retryCount;
      while retryCount != 0
        invariant 0 <= retryCount <= tries
        invariant text == ""
        invariant Fetched(os, k0, tries) == Fetched(os, accesses, retryCount)
        invariant k0 + Tries(os, k0, tries) == accesses + Tries(os, accesses, retryCount)
        invariant log0 + RetryTrace(os, k0, tries, GetText)
               == log + RetryTrace(os, accesses, retryCount, GetText)
      {
        var answer := os(accesses);
        ghost var before := log;
        if answer.Granted? {
          GrantedStep(os, accesses, retryCount, GetText, before);
        } else {
          DeniedStep(os, accesses, retryCount, GetText, before);
        }
        accesses := accesses + 1;
        if answer.Granted? {
          log := log + [Call(GetText, true)];
          text := answer.text;
          break;
        }
        log := log + [Call(GetText, false), Sleep(RetryDelayMs)];
        retryCount := retryCount - 1;
      }
      assert log == log0 + RetryTrace(os, k0, tries, GetText);
      RetrySound(os, k0, tries, GetText, isTradeMessage);
      SoundAppend(log0, RetryTrace(os, k0, tries, GetText), isTradeMessage);
    }

    /** Clears the clipboard, with the same three tries. */
    method ClearClipboard()
      requires Valid()
      modifies this`accesses, this`log
      ensures Valid()
      ensures accesses == old(accesses) + Tries(os, old(accesses), MaxTries)
      ensures log == old(log) + RetryTrace(os, old(accesses), MaxTries, Clear)
    {
      var retryCount := MaxTries;
      ghost var k0, log0, tries := accesses, log, retryCount;
      while retryCount != 0
        invariant 0 <= retryCount <= tries
        invariant k0 + Tries(os, k0, tries) == accesses + Tries(os, accesses, retryCount)
        invariant log0 + RetryTrace(os, k0, tries, Clear)
               == log + RetryTrace(os, accesses, retryCount, Clear)
      {
        var answer := os(accesses);
        ghost var before := log;
        if answer.Granted? {
          GrantedStep(os, accesses, retryCount, Clear, before);
        } else {
          DeniedStep(os, accesses, retryCount, Clear, before);
        }
        accesses := accesses + 1;
        if answer.Granted? {
          log := log + [Call(Clear, true)];
          break;
        }
        log := log + [Call(Clear, false), Sleep(RetryDelayMs)];
        retryCount := retryCount - 1;
      }
      assert log == log0 + RetryTrace(os, k0, tries, Clear);
      RetrySound(os, k0, tries, Clear, isTradeMessage);
      SoundAppend(log0, RetryTrace(os, k0, tries, Clear), isTradeMessage);
    }

    /** A clipboard-change notification: raises NewOffer for new trade text
        and remembers every new non-empty text. */
    method ClipboardChanged(e: ChangedArgs)
      requires Valid()
      modifies this`lastClipboardText, this`log
      ensures Valid()
      ensures var r := OnClipboardChanged(old(lastClipboardText), e, isTradeMessage);
        lastClipboardText == r.last && log == old(log) + r.emitted
    {
      if e.contentType == Text {
        var currentText := e.content;
        if currentText.None? || currentText.value == "" {
          return;
        }
        if lastClipboardText == currentText.value {
          return;
        }
        lastClipboardText := currentText.value;
        if isTradeMessage(currentText.value) {
          SoundAppend(log, [Offer(currentText.value)], isTradeMessage);
          log := log + [Offer(currentText.value)];
        }
      }
    }

    /** One copy-then-parse attempt. */
    method GetItemInClipboard() returns (item: Option<PoeItem>)
      requires Valid()
      modifies this`accesses, this`log
      ensures Valid()
      ensures item == AttemptItem(os, parse, old(accesses))
      ensures accesses == AttemptEnd(os, old(accesses))
      ensures log == old(log) + AttemptTrace(os, old(accesses))
    {
      SoundAppend(log, [CopyKeystroke, Sleep(CopySettleMs)], isTradeMessage);
      log := log + [CopyKeystroke, Sleep(CopySettleMs)];
      var text := GetClipboardText();
      item := parse(text);
    }

    /** A gesture-triggered capture: up to two attempts, then Newitem and a
        clipboard clear when the last attempt parsed an identified item. */
    method ParseItem()
      requires Valid()
      modifies this`accesses, this`log
      ensures var c := Capture(os, parse, old(accesses));
        log == old(log) + c.trace && accesses == c.next
      ensures Valid()
    {
      ghost var k0 := accesses;
      ghost var whole := AttemptLoop(os, parse, k0, ItemAttempts, None);
      ghost var done: seq<Event> := [];
      AfterNil(whole);
      var item: Option<PoeItem> := None;
      var retryCount := ItemAttempts;
      assert whole == After(done, AttemptLoop(os, parse, accesses, retryCount - 0, item));
      for i := 0 to retryCount
        invariant i > 0 ==> item.Some? && !item.value.identified
        invariant log == old(log) + done
        invariant Valid()
        invariant whole == After(done, AttemptLoop(os, parse, accesses, retryCount - i, item))
      {
        ghost var k, prev, previous := accesses, done, item;
        item := GetItemInClipboard();
        if item.None? {
          NullStop(os, parse, k0, prev, k, retryCount - i, previous);
          AppendAssoc(old(log), prev, AttemptTrace(os, k));
          return;
        }
        if !item.value.identified {
          UnidentifiedStep(os, parse, whole, prev, k, retryCount - i, previous);
          SoundAppend(log, [Sleep(UnidentifiedDelayMs)], isTradeMessage);
          log := log + [Sleep(UnidentifiedDelayMs)];
          done := prev + AttemptTrace(os, k) + [Sleep(UnidentifiedDelayMs)];
          AppendAssoc(old(log), prev, AttemptTrace(os, k));
          AppendAssoc(old(log), prev + AttemptTrace(os, k), [Sleep(UnidentifiedDelayMs)]);
          continue;
        }
        IdentifiedStop(os, parse, k0, prev, k, retryCount - i, previous);
        done := prev + AttemptTrace(os, k);
        AppendAssoc(old(log), prev, AttemptTrace(os, k));
        break;
      }
      if item.None? || !item.value.identified {
        AttemptsUsedUp(os, parse, k0, done, accesses, item);
        return;
      }
      ghost var m := accesses;
      SoundAppend(log, [NewItem(item.value)], isTradeMessage);
      log := log + [NewItem(item.value)];
      ClearClipboard();
      AppendThree(old(log), done, [NewItem(item.value)], RetryTrace(os, m, MaxTries, Clear));
    }
  }
}

/** What the lurker does in reaction to the outside world, as functions of the
    operating system's answers (`os`, see ClipboardRetry), of the item parser
    (`parse`: None where the parser returns null) and of the trade-message test:
    the gesture-triggered item capture (ParseItem and GetItemInClipboard), the
    organic clipboard-change handler, and the gesture gate. */
module CaptureSpec {
  import opened Events
  import opened ClipboardRetry

  /** The number of copy-and-parse attempts of one capture. */
  const ItemAttempts: nat := 2

  /** The wait between the simulated Ctrl+C and the clipboard read. */
  const CopySettleMs: nat := 20

  /** The wait after an attempt that parsed an unidentified item. */
  const UnidentifiedDelayMs: nat := 50

  // ---------------------------------------------------------------------------
  // Gesture-triggered capture

  /** One GetItemInClipboard whose first clipboard call is number `k`: the
      simulated Ctrl+C, the settle wait, then the retrying read. */
  function AttemptTrace(os: nat -> Access, k: nat): seq<Event>
  {
    [CopyKeystroke, Sleep(CopySettleMs)] + RetryTrace(os, k, MaxTries, GetText)
  }

  /** The item that attempt parses from the text it read. */
  function AttemptItem(os: nat -> Access, parse: string -> Option<PoeItem>, k: nat): Option<PoeItem>
  {
    parse(Fetched(os, k, MaxTries))
  }

  /** The number of the first clipboard call after that attempt. */
  function AttemptEnd(os: nat -> Access, k: nat): nat
  {
    k + Tries(os, k, MaxTries)
  }

  /** Where the attempt loop of ParseItem stops: its log entries, the next
      clipboard call, the last item parsed, and whether a null item made
      ParseItem return from inside the loop. */
  datatype LoopEnd = LoopEnd(trace: seq<Event>, next: nat, item: Option<PoeItem>, returned: bool)

  /** The attempt loop with `left` attempts remaining and `item` the result of
      the previous attempt: a null item returns at once, an identified item
      breaks out, an unidentified one waits 50 ms and tries again. */
  function AttemptLoop(os: nat -> Access, parse: string -> Option<PoeItem>, k: nat, left: nat,
                       item: Option<PoeItem>): (r: LoopEnd)
    ensures r.returned ==> r.item.None?
    ensures left > 0 && !r.returned ==> r.item.Some?
    ensures left == 0 ==> r == LoopEnd([], k, item, false)
    ensures r.next >= k
    decreases left
  {
    if left == 0 then LoopEnd([], k, item, false)
    else
      var found := AttemptItem(os, parse, k);
      if found.None? then LoopEnd(AttemptTrace(os, k), AttemptEnd(os, k), None, true)
      else if !found.value.identified then
        var rest := AttemptLoop(os, parse, AttemptEnd(os, k), left - 1, found);
        LoopEnd(AttemptTrace(os, k) + [Sleep(UnidentifiedDelayMs)] + rest.trace,
                rest.next, rest.item, rest.returned)
      else LoopEnd(AttemptTrace(os, k), AttemptEnd(os, k), found, false)
  }

  /** The loop end `r` preceded by the log entries `pre`. */
  function After(pre: seq<Event>, r: LoopEnd): LoopEnd
  {
    LoopEnd(pre + r.trace, r.next, r.item, r.returned)
  }

  /** One step of the attempt loop. */
  lemma LoopStep(os: nat -> Access, parse: string -> Option<PoeItem>, k: nat, left: nat, item: Option<PoeItem>)
    requires left > 0
    ensures
      var found, end := AttemptItem(os, parse, k), AttemptEnd(os, k);
      var r := AttemptLoop(os, parse, k, left, item);
      && (found.None? ==> r == LoopEnd(AttemptTrace(os, k), end, None, true))
      && (found.Some? && found.value.identified ==> r == LoopEnd(AttemptTrace(os, k), end, found, false))
      && (found.Some? && !found.value.identified ==>
            r == After(AttemptTrace(os, k) + [Sleep(UnidentifiedDelayMs)], AttemptLoop(os, parse, end, left - 1, found)))
  {
  }

  lemma AfterNil(r: LoopEnd)
    ensures After([], r) == r
  {
    assert [] + r.trace == r.trace;
  }

  lemma AfterAfter(a: seq<Event>, b: seq<Event>, r: LoopEnd)
    ensures After(a, After(b, r)) == After(a + b, r)
  {
    assert a + (b + r.trace) == (a + b) + r.trace;
  }

  /** An attempt that parsed an unidentified item hands the rest of the loop
      over to the next attempt, after a 50 ms wait. */
  lemma UnidentifiedStep(os: nat -> Access, parse: string -> Option<PoeItem>, whole: LoopEnd,
                         prev: seq<Event>, k: nat, left: nat, item: Option<PoeItem>)
    requires left > 0
    requires whole == After(prev, AttemptLoop(os, parse, k, left, item))
    requires AttemptItem(os, parse, k).Some? && !AttemptItem(os, parse, k).value.identified
    ensures whole == After(prev + AttemptTrace(os, k) + [Sleep(UnidentifiedDelayMs)],
                           AttemptLoop(os, parse, AttemptEnd(os, k), left - 1, AttemptItem(os, parse, k)))
  {
    var found := AttemptItem(os, parse, k);
    var rest := AttemptLoop(os, parse, AttemptEnd(os, k), left - 1, found);
    LoopStep(os, parse, k, left, item);
    AfterAfter(prev, AttemptTrace(os, k) + [Sleep(UnidentifiedDelayMs)], rest);
    assert prev + (AttemptTrace(os, k) + [Sleep(UnidentifiedDelayMs)])
        == prev + AttemptTrace(os, k) + [Sleep(UnidentifiedDelayMs)];
  }

  /** The log entries a run adds and the next clipboard call after it. */
  datatype Outcome = Outcome(trace: seq<Event>, next: nat)

  /** Raising Newitem for `item` after `pre`, then clearing the clipboard with
      the retrying clear whose first call is number `m`. */
  function Emit(os: nat -> Access, pre: seq<Event>, item: PoeItem, m: nat): Outcome
  {
    Outcome(pre + [NewItem(item)] + RetryTrace(os, m, MaxTries, Clear), m + Tries(os, m, MaxTries))
  }

  /** One ParseItem whose first clipboard call is number `k`. */
  function Capture(os: nat -> Access, parse: string -> Option<PoeItem>, k: nat): Outcome
  {
    var l := AttemptLoop(os, parse, k, ItemAttempts, None);
    if l.returned || l.item.None? || !l.item.value.identified then Outcome(l.trace, l.next)
    else Emit(os, l.trace, l.item.value, l.next)
  }

  /** The three ways the attempt loop of a capture starting at call `k0` can
      end, and what the capture then does: a null item stops it with the
      attempts' log entries; an identified item is raised; a loop that used up
      its attempts on unidentified items stops without raising anything. */
  lemma NullStop(os: nat -> Access, parse: string -> Option<PoeItem>, k0: nat,
                 prev: seq<Event>, k: nat, left: nat, item: Option<PoeItem>)
    requires left > 0
    requires AttemptLoop(os, parse, k0, ItemAttempts, None) == After(prev, AttemptLoop(os, parse, k, left, item))
    requires AttemptItem(os, parse, k).None?
    ensures Capture(os, parse, k0) == Outcome(prev + AttemptTrace(os, k), AttemptEnd(os, k))
  {
    LoopStep(os, parse, k, left, item);
  }

  lemma IdentifiedStop(os: nat -> Access, parse: string -> Option<PoeItem>, k0: nat,
                       prev: seq<Event>, k: nat, left: nat, item: Option<PoeItem>)
    requires left > 0
    requires AttemptLoop(os, parse, k0, ItemAttempts, None) == After(prev, AttemptLoop(os, parse, k, left, item))
    requires AttemptItem(os, parse, k).Some? && AttemptItem(os, parse, k).value.identified
    ensures Capture(os, parse, k0) ==
      Emit(os, prev + AttemptTrace(os, k), AttemptItem(os, parse, k).value, AttemptEnd(os, k))
  {
    LoopStep(os, parse, k, left, item);
  }

  lemma AttemptsUsedUp(os: nat -> Access, parse: string -> Option<PoeItem>, k0: nat,
                       done: seq<Event>, k: nat, item: Option<PoeItem>)
    requires AttemptLoop(os, parse, k0, ItemAttempts, None) == After(done, AttemptLoop(os, parse, k, 0, item))
    requires item.Some? && !item.value.identified
    ensures Capture(os, parse, k0) == Outcome(done, k)
  {
    assert done + [] == done;
  }

  /** The five ways a capture can go, written out attempt by attempt:
      the first attempt parses null (stop), an identified item (raise it and
      clear), or an unidentified one, after which the second attempt parses
      null (stop), an unidentified item (wait and give up, without clearing)
      or an identified one (raise it and clear). */
  lemma CaptureCases(os: nat -> Access, parse: string -> Option<PoeItem>, k: nat)
    ensures
      var a1, k1 := AttemptItem(os, parse, k), AttemptEnd(os, k);
      var a2, k2 := AttemptItem(os, parse, k1), AttemptEnd(os, k1);
      var first := AttemptTrace(os, k);
      var both := first + [Sleep(UnidentifiedDelayMs)] + AttemptTrace(os, k1);
      var c := Capture(os, parse, k);
      && (a1.None? ==> c == Outcome(first, k1))
      && (a1.Some? && a1.value.identified ==> c == Emit(os, first, a1.value, k1))
      && (a1.Some? && !a1.value.identified && a2.None? ==> c == Outcome(both, k2))
      && (a1.Some? && !a1.value.identified && a2.Some? && !a2.value.identified ==>
            c == Outcome(both + [Sleep(UnidentifiedDelayMs)], k2))
      && (a1.Some? && !a1.value.identified && a2.Some? && a2.value.identified ==>
            c == Emit(os, both, a2.value, k2))
  {
    var a1, k1 := AttemptItem(os, parse, k), AttemptEnd(os, k);
    var a2, k2 := AttemptItem(os, parse, k1), AttemptEnd(os, k1);
    var first := AttemptTrace(os, k);
    if a1.Some? && !a1.value.identified {
      var l2 := AttemptLoop(os, parse, k1, 1, a1);
      if a2.Some? && !a2.value.identified {
        assert AttemptLoop(os, parse, k2, 0, a2) == LoopEnd([], k2, a2, false);
        assert l2 == LoopEnd(AttemptTrace(os, k1) + [Sleep(UnidentifiedDelayMs)], k2, a2, false);
      }
      assert AttemptLoop(os, parse, k, 2, None)
        == LoopEnd(first + [Sleep(UnidentifiedDelayMs)] + l2.trace, l2.next, l2.item, l2.returned);
      assert first + [Sleep(UnidentifiedDelayMs)] + (AttemptTrace(os, k1) + [Sleep(UnidentifiedDelayMs)])
        == first + [Sleep(UnidentifiedDelayMs)] + AttemptTrace(os, k1) + [Sleep(UnidentifiedDelayMs)];
    }
  }

  /** An attempt simulates exactly one Ctrl+C, reads before anything else
      happens, and raises nothing. */
  lemma AttemptFacts(os: nat -> Access, k: nat)
    ensures AttemptTrace(os, k)[0] == CopyKeystroke
    ensures Copies(AttemptTrace(os, k)) == 1
    ensures Items(AttemptTrace(os, k)) == [] && Offers(AttemptTrace(os, k)) == []
    ensures Calls(AttemptTrace(os, k), Clear) == 0
    ensures Calls(AttemptTrace(os, k), GetText) == Tries(os, k, MaxTries)
  {
    var rt := RetryTrace(os, k, MaxTries, GetText);
    RetryTraceEvents(os, k, MaxTries, GetText);
    NoCopies(rt, GetText);
    NoCalls(rt, GetText, Clear);
    CopiesAppend([CopyKeystroke, Sleep(CopySettleMs)], rt);
    CallsAppend([CopyKeystroke, Sleep(CopySettleMs)], rt, Clear);
    CallsAppend([CopyKeystroke, Sleep(CopySettleMs)], rt, GetText);
    ItemsAppend([CopyKeystroke, Sleep(CopySettleMs)], rt);
    OffersAppend([CopyKeystroke, Sleep(CopySettleMs)], rt);
  }

  lemma {:induction false} NoCopies(t: seq<Event>, op: ClipboardOp)
    requires OnlyCallsAndWaits(t, op)
    ensures Copies(t) == 0
  {
    if t != [] {
      assert OnlyCallsAndWaits(t[1..], op) by {
        forall i | 0 <= i < |t[1..]| ensures IsCall(t[1..][i], op) || t[1..][i] == Sleep(RetryDelayMs) {
          assert t[1..][i] == t[i + 1];
        }
      }
      NoCopies(t[1..], op);
    }
  }

  lemma {:induction false} NoCalls(t: seq<Event>, op: ClipboardOp, other: ClipboardOp)
    requires OnlyCallsAndWaits(t, op) && other != op
    ensures Calls(t, other) == 0
  {
    if t != [] {
      assert OnlyCallsAndWaits(t[1..], op) by {
        forall i | 0 <= i < |t[1..]| ensures IsCall(t[1..][i], op) || t[1..][i] == Sleep(RetryDelayMs) {
          assert t[1..][i] == t[i + 1];
        }
      }
      NoCalls(t[1..], op, other);
    }
  }

  /** Newitem is raised at most once per capture, only with an identified
      item, and that item is the one the last attempt parsed: the first
      attempt's when it was identified, otherwise the second attempt's when
      that one was; in every other case nothing is raised. */
  lemma CaptureRaises(os: nat -> Access, parse: string -> Option<PoeItem>, k: nat)
    ensures
      var a1 := AttemptItem(os, parse, k);
      var a2 := AttemptItem(os, parse, AttemptEnd(os, k));
      Items(Capture(os, parse, k).trace) ==
        if a1.Some? && a1.value.identified then [a1.value]
        else if a1.Some? && a2.Some? && a2.value.identified then [a2.value]
        else []
    ensures |Items(Capture(os, parse, k).trace)| <= 1
    ensures forall x :: x in Items(Capture(os, parse, k).trace) ==> x.identified
    ensures Offers(Capture(os, parse, k).trace) == []
  {
    var k1 := AttemptEnd(os, k);
    var k2 := AttemptEnd(os, k1);
    var first := AttemptTrace(os, k);
    var second := AttemptTrace(os, k1);
    var both := first + [Sleep(UnidentifiedDelayMs)] + second;
    CaptureCases(os, parse, k);
    AttemptFacts(os, k);
    AttemptFacts(os, k1);
    ItemsAppend(first, [Sleep(UnidentifiedDelayMs)]);
    ItemsAppend(first + [Sleep(UnidentifiedDelayMs)], second);
    ItemsAppend(both, [Sleep(UnidentifiedDelayMs)]);
    OffersAppend(first, [Sleep(UnidentifiedDelayMs)]);
    OffersAppend(first + [Sleep(UnidentifiedDelayMs)], second);
    OffersAppend(both, [Sleep(UnidentifiedDelayMs)]);
    if AttemptItem(os, parse, k).Some? {
      EmitRaises(os, first, AttemptItem(os, parse, k), k1);
    }
    if AttemptItem(os, parse, k1).Some? {
      EmitRaises(os, both, AttemptItem(os, parse, k1), k2);
    }
  }

  lemma EmitRaises(os: nat -> Access, pre: seq<Event>, item: Option<PoeItem>, m: nat)
    requires item.Some?
    ensures Items(Emit(os, pre, item.value, m).trace) == Items(pre) + [item.value]
    ensures Offers(Emit(os, pre, item.value, m).trace) == Offers(pre)
  {
    var rt := RetryTrace(os, m, MaxTries, Clear);
    RetryTraceEvents(os, m, MaxTries, Clear);
    ItemsAppend(pre, [NewItem(item.value)]);
    ItemsAppend(pre + [NewItem(item.value)], rt);
    OffersAppend(pre, [NewItem(item.value)]);
    OffersAppend(pre + [NewItem(item.value)], rt);
  }

  /** A capture logs nothing the lurker's log invariant forbids. */
  lemma CaptureSound(os: nat -> Access, parse: string -> Option<PoeItem>, k: nat, isTradeMessage: string -> bool)
    ensures Sound(Capture(os, parse, k).trace, isTradeMessage)
  {
    CaptureRaises(os, parse, k);
    SoundFromRaised(Capture(os, parse, k).trace, isTradeMessage);
  }

  /** A capture simulates Ctrl+C once, or twice when the first attempt parsed
      an unidentified item: never more than the attempt cap. */
  lemma CaptureCopies(os: nat -> Access, parse: string -> Option<PoeItem>, k: nat)
    ensures
      var a1 := AttemptItem(os, parse, k);
      Copies(Capture(os, parse, k).trace) == if a1.Some? && !a1.value.identified then 2 else 1
    ensures 1 <= Copies(Capture(os, parse, k).trace) <= ItemAttempts
  {
    var k1 := AttemptEnd(os, k);
    var k2 := AttemptEnd(os, k1);
    var first := AttemptTrace(os, k);
    var second := AttemptTrace(os, k1);
    var both := first + [Sleep(UnidentifiedDelayMs)] + second;
    CaptureCases(os, parse, k);
    AttemptFacts(os, k);
    AttemptFacts(os, k1);
    CopiesAppend(first, [Sleep(UnidentifiedDelayMs)]);
    CopiesAppend(first + [Sleep(UnidentifiedDelayMs)], second);
    CopiesAppend(both, [Sleep(UnidentifiedDelayMs)]);
    if AttemptItem(os, parse, k).Some? {
      EmitCopies(os, first, AttemptItem(os, parse, k), k1);
    }
    if AttemptItem(os, parse, k1).Some? {
      EmitCopies(os, both, AttemptItem(os, parse, k1), k2);
    }
  }

  lemma EmitCopies(os: nat -> Access, pre: seq<Event>, item: Option<PoeItem>, m: nat)
    requires item.Some?
    ensures Copies(Emit(os, pre, item.value, m).trace) == Copies(pre)
  {
    var rt := RetryTrace(os, m, MaxTries, Clear);
    RetryTraceEvents(os, m, MaxTries, Clear);
    NoCopies(rt, Clear);
    CopiesAppend(pre, [NewItem(item.value)]);
    CopiesAppend(pre + [NewItem(item.value)], rt);
  }

  predicate IsRead(e: Event) { IsCall(e, GetText) }
  predicate IsClear(e: Event) { IsCall(e, Clear) }
  predicate IsCopy(e: Event) { e == CopyKeystroke }
  predicate IsRaise(e: Event) { e.NewItem? }

  /** Whether in `t` every entry satisfying `later` comes after some entry
      satisfying `earlier`. */
  ghost predicate Follows(t: seq<Event>, later: Event -> bool, earlier: Event -> bool)
  {
    forall i :: 0 <= i < |t| && later(t[i]) ==> exists j :: 0 <= j < i && earlier(t[j])
  }

  lemma FollowsAppend(a: seq<Event>, b: seq<Event>, later: Event -> bool, earlier: Event -> bool)
    requires Follows(a, later, earlier) && Follows(b, later, earlier)
    ensures Follows(a + b, later, earlier)
  {
    forall i | 0 <= i < |a + b| && later((a + b)[i])
      ensures exists j :: 0 <= j < i && earlier((a + b)[j])
    {
      if i < |a| {
        assert (a + b)[i] == a[i];
        var j :| 0 <= j < i && earlier(a[j]);
        assert (a + b)[j] == a[j];
      } else {
        assert (a + b)[i] == b[i - |a|];
        var j :| 0 <= j < i - |a| && earlier(b[j]);
        assert (a + b)[|a| + j] == b[j];
      }
    }
  }

  lemma FollowsHead(t: seq<Event>, later: Event -> bool, earlier: Event -> bool)
    requires |t| > 0 && earlier(t[0]) && !later(t[0])
    ensures Follows(t, later, earlier)
  {
  }

  lemma FollowsNone(t: seq<Event>, later: Event -> bool, earlier: Event -> bool)
    requires forall i :: 0 <= i < |t| ==> !later(t[i])
    ensures Follows(t, later, earlier)
  {
  }

  /** Within every attempt the simulated Ctrl+C comes before the clipboard
      read, and the clipboard is cleared only after Newitem was raised. */
  lemma CaptureOrder(os: nat -> Access, parse: string -> Option<PoeItem>, k: nat)
    ensures Follows(Capture(os, parse, k).trace, IsRead, IsCopy)
    ensures Follows(Capture(os, parse, k).trace, IsClear, IsRaise)
    ensures Calls(Capture(os, parse, k).trace, Clear) > 0 ==> |Items(Capture(os, parse, k).trace)| == 1
  {
    var k1 := AttemptEnd(os, k);
    var k2 := AttemptEnd(os, k1);
    var first := AttemptTrace(os, k);
    var second := AttemptTrace(os, k1);
    var pause := [Sleep(UnidentifiedDelayMs)];
    var both := first + pause + second;
    CaptureCases(os, parse, k);
    CaptureRaises(os, parse, k);
    AttemptFacts(os, k);
    AttemptFacts(os, k1);
    // reads follow the copy of their own attempt
    FollowsHead(first, IsRead, IsCopy);
    FollowsHead(second, IsRead, IsCopy);
    FollowsNone(pause, IsRead, IsCopy);
    FollowsAppend(first, pause, IsRead, IsCopy);
    FollowsAppend(first + pause, second, IsRead, IsCopy);
    FollowsAppend(both, pause, IsRead, IsCopy);
    // no clear before an item is raised
    ClearFree(first);
    ClearFree(second);
    FollowsNone(pause, IsClear, IsRaise);
    FollowsAppend(first, pause, IsClear, IsRaise);
    FollowsAppend(first + pause, second, IsClear, IsRaise);
    FollowsAppend(both, pause, IsClear, IsRaise);
    CallsAppend(first, pause, Clear);
    CallsAppend(first + pause, second, Clear);
    CallsAppend(both, pause, Clear);
    var a1 := AttemptItem(os, parse, k);
    var a2 := AttemptItem(os, parse, k1);
    if a1.Some? && a1.value.identified {
      EmitOrder(os, first, a1.value, k1);
    } else if a1.Some? && a2.Some? && a2.value.identified {
      EmitOrder(os, both, a2.value, k2);
    }
  }

  /** A trace without clear calls trivially has every clear after an item. */
  lemma ClearFree(t: seq<Event>)
    requires Calls(t, Clear) == 0
    ensures Follows(t, IsClear, IsRaise)
  {
    forall i | 0 <= i < |t| ensures !IsCall(t[i], Clear) {
      if IsCall(t[i], Clear) {
        CallsSplit(t, i, Clear);
      }
    }
    FollowsNone(t, IsClear, IsRaise);
  }

  lemma CallsSplit(t: seq<Event>, i: nat, op: ClipboardOp)
    requires i < |t| && IsCall(t[i], op)
    ensures Calls(t, op) > 0
  {
    assert t == t[..i] + [t[i]] + t[i + 1..];
    CallsAppend(t[..i] + [t[i]], t[i + 1..], op);
    CallsAppend(t[..i], [t[i]], op);
  }

  lemma EmitOrder(os: nat -> Access, pre: seq<Event>, item: PoeItem, m: nat)
    requires Follows(pre, IsRead, IsCopy)
    requires Follows(pre, IsClear, IsRaise)
    ensures Follows(Emit(os, pre, item, m).trace, IsRead, IsCopy)
    ensures Follows(Emit(os, pre, item, m).trace, IsClear, IsRaise)
  {
    var rt := RetryTrace(os, m, MaxTries, Clear);
    RetryTraceEvents(os, m, MaxTries, Clear);
    var tail := [NewItem(item)] + rt;
    forall i | 0 <= i < |tail| ensures !IsRead(tail[i]) {
      if i > 0 { assert tail[i] == rt[i - 1]; }
    }
    FollowsNone(tail, IsRead, IsCopy);
    FollowsHead(tail, IsClear, IsRaise);
    FollowsAppend(pre, tail, IsRead, IsCopy);
    FollowsAppend(pre, tail, IsClear, IsRaise);
    assert pre + [NewItem(item)] + rt == pre + tail;
  }

  // ---------------------------------------------------------------------------
  // Organic clipboard-change handler

  /** The kind of content a clipboard-change notification reports. */
  datatype ContentType = Text | Image | Files | Other

  /** A clipboard-change notification: its content type and its content seen
      as a string (None when the content is null or not a string). */
  datatype ChangedArgs = ChangedArgs(contentType: ContentType, content: Option<string>)

  /** The lurker's remembered text after a notification, and its log entries. */
  datatype Reaction = Reaction(last: string, emitted: seq<Event>)

  /** Whether `e` reports non-empty text that differs from `last`. */
  predicate IsNewText(last: string, e: ChangedArgs)
  {
    e.contentType == Text && e.content.Some? && e.content.value != "" && e.content.value != last
  }

  /** The handler, with `last` the remembered text. */
  function OnClipboardChanged(last: string, e: ChangedArgs, isTradeMessage: string -> bool): (r: Reaction)
    ensures e.contentType != Text || e.content.None? || e.content == Some("") ==> r == Reaction(last, [])
    ensures e.contentType == Text && e.content == Some(last) ==> r == Reaction(last, [])
    ensures IsNewText(last, e) ==> r.last == e.content.value
    ensures r.emitted != [] <==> IsNewText(last, e) && isTradeMessage(e.content.value)
    ensures r.emitted != [] ==> r.emitted == [Offer(e.content.value)]
    ensures Items(r.emitted) == [] && |Offers(r.emitted)| <= 1
  {
    if e.contentType != Text then Reaction(last, [])
    else match e.content
      case None => Reaction(last, [])
      case Some(text) =>
        if text == "" then Reaction(last, [])
        else if last == text then Reaction(last, [])
        else if isTradeMessage(text) then
          assert Items([Offer(text)]) == Items([]) && Offers([Offer(text)]) == [text] + Offers([]);
          Reaction(text, [Offer(text)])
        else Reaction(text, [])
  }

  /** Notifications handled one after another, starting from remembered text `last`. */
  function Replay(last: string, es: seq<ChangedArgs>, isTradeMessage: string -> bool): Reaction
    decreases |es|
  {
    if es == [] then Reaction(last, [])
    else
      var r := OnClipboardChanged(last, es[0], isTradeMessage);
      var rest := Replay(r.last, es[1..], isTradeMessage);
      Reaction(rest.last, r.emitted + rest.emitted)
  }

  /** Deduplication: two identical notifications in a row raise at most one
      offer, and the second changes nothing. */
  lemma DuplicateIgnored(last: string, e: ChangedArgs, isTradeMessage: string -> bool)
    ensures
      var r1 := OnClipboardChanged(last, e, isTradeMessage);
      var r2 := OnClipboardChanged(r1.last, e, isTradeMessage);
      r2 == Reaction(r1.last, []) && |Offers(r1.emitted + r2.emitted)| <= 1
  {
    var r1 := OnClipboardChanged(last, e, isTradeMessage);
    assert r1.emitted + [] == r1.emitted;
  }

  /** Any number of identical notifications in a row raise at most one offer. */
  lemma {:induction false} RepeatsRaiseAtMostOnce(last: string, e: ChangedArgs, n: nat, isTradeMessage: string -> bool)
    ensures |Offers(Replay(last, seq(n, _ => e), isTradeMessage).emitted)| <= 1
  {
    if n > 0 {
      var r1 := OnClipboardChanged(last, e, isTradeMessage);
      var es := seq(n, _ => e);
      assert es[0] == e && es[1..] == seq(n - 1, _ => e);
      RepeatsIgnored(r1.last, e, n - 1, isTradeMessage);
      OffersAppend(r1.emitted, Replay(r1.last, es[1..], isTradeMessage).emitted);
    }
  }

  /** Once `e`'s text is remembered, repeating `e` raises nothing and leaves
      the remembered text alone. */
  lemma {:induction false} RepeatsIgnored(last: string, e: ChangedArgs, n: nat, isTradeMessage: string -> bool)
    requires !IsNewText(last, e)
    ensures Replay(last, seq(n, _ => e), isTradeMessage) == Reaction(last, [])
  {
    if n > 0 {
      var es := seq(n, _ => e);
      assert es[0] == e && es[1..] == seq(n - 1, _ => e);
      RepeatsIgnored(last, e, n - 1, isTradeMessage);
    }
  }

  // ---------------------------------------------------------------------------
  // Gesture gate

  /** The mouse buttons a click can report. */
  datatype MouseButton = NoButton | Left | Right | Middle | XButton1 | XButton2

  /** The mouse-click handler's test: the search setting and the pledge must
      hold and the button must be the left one; then Shift and Control must
      both be held down. */
  predicate TriggersCapture(searchEnabled: bool, isPledging: bool, button: MouseButton,
                            shiftDown: bool, controlDown: bool)
  {
    if !searchEnabled || !isPledging || button != Left then false
    else shiftDown && controlDown
  }

  /** A capture is triggered exactly when all five conditions hold. */
  lemma TriggerNeedsAllFive(searchEnabled: bool, isPledging: bool, button: MouseButton,
                            shiftDown: bool, controlDown: bool)
    ensures TriggersCapture(searchEnabled, isPledging, button, shiftDown, controlDown)
        <==> searchEnabled && isPledging && button == Left && shiftDown && controlDown
  {
  }
}

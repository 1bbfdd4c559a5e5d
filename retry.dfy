/** The bounded retry around one clipboard call (GetClipboardText and
    ClearClipboard): up to three calls, a 200 ms wait after each one that the
    operating system denies, and a stop at the first one it grants.

    The operating system is a stream `os` of answers: `os(k)` is its answer to
    the lurker's `k`-th clipboard call. A retry loop whose next call is number
    `k` and that has `left` tries remaining is described by three functions of
    `os`, `k` and `left`. */
module ClipboardRetry {
  import opened Events

  /** The number of calls one clipboard operation may make. */
  const MaxTries: nat := 3

  /** The wait after a denied call, in milliseconds. */
  const RetryDelayMs: nat := 200

  /** How many calls the loop makes. */
  function Tries(os: nat -> Access, k: nat, left: nat): (n: nat)
    decreases left
  {
    if left == 0 then 0
    else if os(k).Granted? then 1
    else 1 + Tries(os, k + 1, left - 1)
  }

  /** A run makes at most `left` calls and at least one when it may make
      any; when it stops early, it is because its last call was granted. */
  lemma {:induction false} TriesBounds(os: nat -> Access, k: nat, left: nat)
    ensures Tries(os, k, left) <= left
    ensures left > 0 ==> 1 <= Tries(os, k, left)
    ensures 0 < Tries(os, k, left) < left ==> os(k + Tries(os, k, left) - 1).Granted?
    decreases left
  {
    if left > 0 && os(k).Denied? {
      TriesBounds(os, k + 1, left - 1);
    }
  }

  /** The text a read returns: the text of the first granted call, or the
      empty string when every call is denied. */
  function Fetched(os: nat -> Access, k: nat, left: nat): string
    decreases left
  {
    if left == 0 then ""
    else if os(k).Granted? then os(k).text
    else Fetched(os, k + 1, left - 1)
  }

  /** What the loop does, as log entries: each call of kind `op` with its
      outcome, followed by a wait when it was denied. */
  function RetryTrace(os: nat -> Access, k: nat, left: nat, op: ClipboardOp): seq<Event>
    decreases left
  {
    if left == 0 then []
    else if os(k).Granted? then [Call(op, true)]
    else [Call(op, false), Sleep(RetryDelayMs)] + RetryTrace(os, k + 1, left - 1, op)
  }

  /** One step of the loop: the first call is granted and ends it, or is
      denied and leaves the rest of the loop with one try fewer. */
  lemma RetryStep(os: nat -> Access, k: nat, left: nat, op: ClipboardOp)
    requires left > 0
    ensures os(k).Granted? ==>
      Fetched(os, k, left) == os(k).text && Tries(os, k, left) == 1 &&
      RetryTrace(os, k, left, op) == [Call(op, true)]
    ensures os(k).Denied? ==>
      Fetched(os, k, left) == Fetched(os, k + 1, left - 1) &&
      Tries(os, k, left) == 1 + Tries(os, k + 1, left - 1) &&
      RetryTrace(os, k, left, op) == [Call(op, false), Sleep(RetryDelayMs)] + RetryTrace(os, k + 1, left - 1, op)
  {
  }

  /** The loop's state after a denied call, with the log entries `before`
      written so far, describes the same run as the state before it. */
  lemma DeniedStep(os: nat -> Access, k: nat, left: nat, op: ClipboardOp, before: seq<Event>)
    requires left > 0 && os(k).Denied?
    ensures before + [Call(op, false), Sleep(RetryDelayMs)] + RetryTrace(os, k + 1, left - 1, op)
         == before + RetryTrace(os, k, left, op)
    ensures k + 1 + Tries(os, k + 1, left - 1) == k + Tries(os, k, left)
    ensures Fetched(os, k + 1, left - 1) == Fetched(os, k, left)
  {
    RetryStep(os, k, left, op);
    AppendAssoc(before, [Call(op, false), Sleep(RetryDelayMs)], RetryTrace(os, k + 1, left - 1, op));
  }

  /** A granted call ends the run: its log entry is the rest of the run. */
  lemma GrantedStep(os: nat -> Access, k: nat, left: nat, op: ClipboardOp, before: seq<Event>)
    requires left > 0 && os(k).Granted?
    ensures before + [Call(op, true)] == before + RetryTrace(os, k, left, op)
    ensures k + 1 == k + Tries(os, k, left)
    ensures os(k).text == Fetched(os, k, left)
  {
    RetryStep(os, k, left, op);
  }

  /** The first granted call wins: when the calls before number `k + j` are
      denied and that one is granted, the loop makes exactly `j + 1` calls,
      returns that call's text, and waits `j` times. */
  lemma {:induction false} FirstGrantWins(os: nat -> Access, k: nat, left: nat, j: nat, op: ClipboardOp)
    requires j < left
    requires forall i :: k <= i < k + j ==> os(i).Denied?
    requires os(k + j).Granted?
    ensures Tries(os, k, left) == j + 1
    ensures Fetched(os, k, left) == os(k + j).text
    ensures Calls(RetryTrace(os, k, left, op), op) == j + 1
    ensures SleptMs(RetryTrace(os, k, left, op)) == j * RetryDelayMs
    decreases left
  {
    if j == 0 {
      assert RetryTrace(os, k, left, op) == [Call(op, true)];
    } else {
      assert os(k).Denied?;
      FirstGrantWins(os, k + 1, left - 1, j - 1, op);
      var rest := RetryTrace(os, k + 1, left - 1, op);
      assert RetryTrace(os, k, left, op) == [Call(op, false), Sleep(RetryDelayMs)] + rest;
      SleptMsAppend([Call(op, false), Sleep(RetryDelayMs)], rest);
      CallsAppend([Call(op, false), Sleep(RetryDelayMs)], rest, op);
    }
  }

  /** When every call is denied, the loop makes all `left` calls, waits after
      each, and a read gives up with the empty string rather than an error. */
  lemma {:induction false} AllDenied(os: nat -> Access, k: nat, left: nat, op: ClipboardOp)
    requires forall i :: k <= i < k + left ==> os(i).Denied?
    ensures Tries(os, k, left) == left
    ensures Fetched(os, k, left) == ""
    ensures Calls(RetryTrace(os, k, left, op), op) == left
    ensures Call(op, true) !in RetryTrace(os, k, left, op)
    ensures SleptMs(RetryTrace(os, k, left, op)) == left * RetryDelayMs
    decreases left
  {
    if left > 0 {
      assert os(k).Denied?;
      AllDenied(os, k + 1, left - 1, op);
      var rest := RetryTrace(os, k + 1, left - 1, op);
      assert RetryTrace(os, k, left, op) == [Call(op, false), Sleep(RetryDelayMs)] + rest;
      SleptMsAppend([Call(op, false), Sleep(RetryDelayMs)], rest);
      CallsAppend([Call(op, false), Sleep(RetryDelayMs)], rest, op);
    }
  }

  /** Whether every entry of `t` is a clipboard call of kind `op` or a
      200 ms wait. */
  predicate OnlyCallsAndWaits(t: seq<Event>, op: ClipboardOp)
  {
    forall i :: 0 <= i < |t| ==> IsCall(t[i], op) || t[i] == Sleep(RetryDelayMs)
  }

  /** The loop only calls the clipboard with `op` and waits 200 ms; it never
      raises an event or simulates a keystroke, and it makes one call per try. */
  lemma {:induction false} RetryTraceEvents(os: nat -> Access, k: nat, left: nat, op: ClipboardOp)
    ensures OnlyCallsAndWaits(RetryTrace(os, k, left, op), op)
    ensures Calls(RetryTrace(os, k, left, op), op) == Tries(os, k, left)
    ensures Items(RetryTrace(os, k, left, op)) == []
    ensures Offers(RetryTrace(os, k, left, op)) == []
    decreases left
  {
    var t := RetryTrace(os, k, left, op);
    if left > 0 && os(k).Denied? {
      RetryTraceEvents(os, k + 1, left - 1, op);
      var rest := RetryTrace(os, k + 1, left - 1, op);
      assert t == [Call(op, false), Sleep(RetryDelayMs)] + rest;
      CallsAppend([Call(op, false), Sleep(RetryDelayMs)], rest, op);
      forall i | 0 <= i < |t| ensures IsCall(t[i], op) || t[i] == Sleep(RetryDelayMs) {
        if i >= 2 { assert t[i] == rest[i - 2]; }
      }
    }
    NoneRaised(t);
  }

  /** The loop logs nothing the lurker's log invariant forbids. */
  lemma RetrySound(os: nat -> Access, k: nat, left: nat, op: ClipboardOp, isTradeMessage: string -> bool)
    ensures Sound(RetryTrace(os, k, left, op), isTradeMessage)
  {
    RetryTraceEvents(os, k, left, op);
    SoundFromRaised(RetryTrace(os, k, left, op), isTradeMessage);
  }
}

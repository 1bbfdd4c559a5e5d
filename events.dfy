/** Values exchanged by the clipboard lurker: what the operating system answers
    to one clipboard call, the item record the item parser produces, and the
    events the lurker raises or performs, which the model records in a log. */
module Events {

  datatype Option<+T> = None | Some(value: T)

  /** The record the item parser returns. The lurker only looks at
      `identified`; `details` stands for every other field of the record. */
  datatype PoeItem = PoeItem(identified: bool, details: string)

  /** The operating system's answer to one call into the clipboard:
      `Denied` when the call throws because another process holds the
      clipboard, otherwise `Granted` with the clipboard's text at that moment. */
  datatype Access = Denied | Granted(text: string)

  /** The two clipboard calls the lurker makes. */
  datatype ClipboardOp = GetText | Clear

  /** One entry of the lurker's log of observable effects. */
  datatype Event =
    | Offer(text: string)                    // the NewOffer event is raised
    | NewItem(item: PoeItem)                 // the Newitem event is raised
    | CopyKeystroke                          // a simulated Ctrl+C
    | Call(op: ClipboardOp, granted: bool)   // one clipboard call and whether it succeeded
    | Sleep(ms: nat)                         // a fixed wait of `ms` milliseconds

  /** The items raised through Newitem in `t`, in order. */
  function Items(t: seq<Event>): (r: seq<PoeItem>)
    ensures |r| <= |t|
  {
    if t == [] then []
    else (if t[0].NewItem? then [t[0].item] else []) + Items(t[1..])
  }

  /** The texts raised through NewOffer in `t`, in order. */
  function Offers(t: seq<Event>): (r: seq<string>)
    ensures |r| <= |t|
  {
    if t == [] then []
    else (if t[0].Offer? then [t[0].text] else []) + Offers(t[1..])
  }

  /** The total time `t` spends waiting, in milliseconds. */
  function SleptMs(t: seq<Event>): nat
  {
    if t == [] then 0
    else (if t[0].Sleep? then t[0].ms else 0) + SleptMs(t[1..])
  }

  /** Whether `e` is a clipboard call of kind `op`, successful or not. */
  predicate IsCall(e: Event, op: ClipboardOp)
  {
    e.Call? && e.op == op
  }

  /** The number of clipboard calls of kind `op` in `t`. */
  function Calls(t: seq<Event>, op: ClipboardOp): nat
  {
    if t == [] then 0
    else (if IsCall(t[0], op) then 1 else 0) + Calls(t[1..], op)
  }

  /** The number of copy keystrokes in `t`. */
  function Copies(t: seq<Event>): nat
  {
    if t == [] then 0
    else (if t[0] == CopyKeystroke then 1 else 0) + Copies(t[1..])
  }

  /** Whether the lurker may log `e`: an item only when it is identified,
      an offer only for a non-empty trade message. */
  predicate Allowed(e: Event, isTradeMessage: string -> bool)
  {
    (e.NewItem? ==> e.item.identified) &&
    (e.Offer? ==> e.text != "" && isTradeMessage(e.text))
  }

  /** The invariant the lurker's log keeps: every entry is allowed. */
  predicate Sound(t: seq<Event>, isTradeMessage: string -> bool)
  {
    t == [] || (Allowed(t[0], isTradeMessage) && Sound(t[1..], isTradeMessage))
  }

  lemma AppendAssoc(a: seq<Event>, b: seq<Event>, c: seq<Event>)
    ensures a + b + c == a + (b + c)
  {
  }

  lemma AppendThree(a: seq<Event>, b: seq<Event>, c: seq<Event>, d: seq<Event>)
    ensures a + (b + c + d) == a + b + c + d
  {
  }

  lemma {:induction false} ItemsAppend(a: seq<Event>, b: seq<Event>)
    ensures Items(a + b) == Items(a) + Items(b)
  {
    if a == [] {
      assert a + b == b;
    } else {
      assert (a + b)[0] == a[0];
      assert (a + b)[1..] == a[1..] + b;
      ItemsAppend(a[1..], b);
    }
  }

  lemma {:induction false} OffersAppend(a: seq<Event>, b: seq<Event>)
    ensures Offers(a + b) == Offers(a) + Offers(b)
  {
    if a == [] {
      assert a + b == b;
    } else {
      assert (a + b)[0] == a[0];
      assert (a + b)[1..] == a[1..] + b;
      OffersAppend(a[1..], b);
    }
  }

  lemma {:induction false} SleptMsAppend(a: seq<Event>, b: seq<Event>)
    ensures SleptMs(a + b) == SleptMs(a) + SleptMs(b)
  {
    if a == [] {
      assert a + b == b;
    } else {
      assert (a + b)[0] == a[0];
      assert (a + b)[1..] == a[1..] + b;
      SleptMsAppend(a[1..], b);
    }
  }

  lemma {:induction false} CallsAppend(a: seq<Event>, b: seq<Event>, op: ClipboardOp)
    ensures Calls(a + b, op) == Calls(a, op) + Calls(b, op)
  {
    if a == [] {
      assert a + b == b;
    } else {
      assert (a + b)[0] == a[0];
      assert (a + b)[1..] == a[1..] + b;
      CallsAppend(a[1..], b, op);
    }
  }

  lemma {:induction false} CopiesAppend(a: seq<Event>, b: seq<Event>)
    ensures Copies(a + b) == Copies(a) + Copies(b)
  {
    if a == [] {
      assert a + b == b;
    } else {
      assert (a + b)[0] == a[0];
      assert (a + b)[1..] == a[1..] + b;
      CopiesAppend(a[1..], b);
    }
  }

  /** A log without Newitem events raises no item, and likewise for offers. */
  lemma {:induction false} NoneRaised(t: seq<Event>)
    requires forall i :: 0 <= i < |t| ==> !t[i].NewItem? && !t[i].Offer?
    ensures Items(t) == [] && Offers(t) == []
  {
    if t != [] {
      NoneRaised(t[1..]);
    }
  }

  lemma {:induction false} SoundAppend(a: seq<Event>, b: seq<Event>, isTradeMessage: string -> bool)
    requires Sound(a, isTradeMessage) && Sound(b, isTradeMessage)
    ensures Sound(a + b, isTradeMessage)
  {
    if a == [] {
      assert a + b == b;
    } else {
      assert (a + b)[0] == a[0];
      assert (a + b)[1..] == a[1..] + b;
      SoundAppend(a[1..], b, isTradeMessage);
    }
  }

  /** A log that raises only identified items and no offers is sound. */
  lemma {:induction false} SoundFromRaised(t: seq<Event>, isTradeMessage: string -> bool)
    requires forall x :: x in Items(t) ==> x.identified
    requires Offers(t) == []
    ensures Sound(t, isTradeMessage)
  {
    if t != [] {
      assert Items(t) == (if t[0].NewItem? then [t[0].item] else []) + Items(t[1..]);
      assert t[0].NewItem? ==> t[0].item in Items(t);
      assert Offers(t[1..]) == [] && !t[0].Offer?;
      SoundFromRaised(t[1..], isTradeMessage);
    }
  }
}

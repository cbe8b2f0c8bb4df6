/**
 * `Promise`: a value that may not have been received yet.  It is in one of
 * three states (`Pending` on a one-shot receiver, `Ready` with the value, or
 * `Empty`); every query first checks the receiver and moves a pending promise
 * to `Ready` or `Empty` when the channel has settled, and nothing ever moves
 * it back to `Pending`.
 *
 * The one-shot channel is a library type.  The model ASSUMES the following
 * of it: the receiver sees the channel as waiting, holding a value, closed,
 * or consumed (the receiver's `poll` has already completed with the value);
 * a send on a waiting channel stores the value; dropping the sender of a
 * waiting channel closes it; `try_recv` reports that state without blocking,
 * a consumed channel reading as closed; and `poll` reports it too, but takes
 * the value out (leaving the channel consumed) and panics ("called after
 * complete") when the channel is already consumed.  The value `try_recv`
 * takes out is not tracked: `check_rx` drops the receiver as soon as it has
 * it.
 */
module Promises {
  import opened Wrappers

  // ---------------------------------------------------------------------------
  // The one-shot channel (an assumption about the library)
  // ---------------------------------------------------------------------------

  datatype ChannelState<T> = Waiting | HasValue(value: T) | Closed | Consumed

  /** The shared state of a one-shot channel, seen by both halves. */
  class OneShot<T> {
    var state: ChannelState<T>

    constructor()
      ensures state == Waiting
    {
      state := Waiting;
    }
  }

  /** The sender's `send`: stores the value on a waiting channel, hands it back otherwise. */
  method SendValue<T>(ch: OneShot<T>, v: T) returns (r: Result<(), T>)
    modifies ch
    ensures old(ch.state).Waiting? ==> ch.state == HasValue(v) && r == Ok(())
    ensures !old(ch.state).Waiting? ==> unchanged(ch) && r == Err(v)
  {
    if ch.state.Waiting? {
      ch.state := HasValue(v);
      r := Ok(());
    } else {
      r := Err(v);
    }
  }

  /** Dropping the sender closes a channel that never got a value. */
  method DropSender<T>(ch: OneShot<T>)
    modifies ch
    ensures old(ch.state).Waiting? ==> ch.state == Closed
    ensures !old(ch.state).Waiting? ==> unchanged(ch)
  {
    if ch.state.Waiting? {
      ch.state := Closed;
    }
  }

  datatype TryRecvResult<T> = Received(value: T) | NothingYet | SenderClosed

  /** The receiver's `try_recv`. */
  function TryRecv<T>(s: ChannelState<T>): TryRecvResult<T>
  {
    match s
    case Waiting => NothingYet
    case HasValue(v) => Received(v)
    case Closed => SenderClosed
    case Consumed => SenderClosed
  }

  // ---------------------------------------------------------------------------
  // The promise on values
  // ---------------------------------------------------------------------------

  datatype Inner<T> = Pending(rx: OneShot<T>) | Ready(value: T) | Empty

  /**
   * `check_rx` on values: the state after checking a promise in state `i`
   * whose channel is in state `s`.  Only a pending promise changes: it
   * becomes `Ready` with the value the channel holds, or `Empty` when the
   * sender is gone; a promise still pending afterwards is unchanged.
   */
  function Checked<T(==)>(i: Inner<T>, s: ChannelState<T>): (r: Inner<T>)
    ensures !i.Pending? ==> r == i
    ensures r.Pending? ==> r == i && s.Waiting?
    ensures i.Pending? && r.Ready? ==> s == HasValue(r.value)
    ensures i.Pending? && r.Empty? ==> s.Closed? || s.Consumed?
  {
    if !i.Pending? then i
    else
      match TryRecv(s)
      case Received(x) => Ready(x)
      case NothingYet => i
      case SenderClosed => Empty
  }

  /** `get` on values: `Some(x)` iff the checked state is `Ready(x)`; the value stays in the promise. */
  function GetOf<T(==)>(i: Inner<T>, s: ChannelState<T>): (r: (Option<T>, Inner<T>))
    ensures r.1 == Checked(i, s)
    ensures r.0.Some? <==> Checked(i, s).Ready?
    ensures r.0.Some? ==> r.0.value == Checked(i, s).value
  {
    var c := Checked(i, s);
    (if c.Ready? then Some(c.value) else None, c)
  }

  /** `take` on values: a ready value is handed out and `Empty` left behind; otherwise `None`. */
  function TakeOf<T(==)>(i: Inner<T>, s: ChannelState<T>): (r: (Option<T>, Inner<T>))
    ensures Checked(i, s).Ready? ==> r == (Some(Checked(i, s).value), Empty)
    ensures !Checked(i, s).Ready? ==> r == (None, Checked(i, s))
  {
    var c := Checked(i, s);
    if c.Ready? then (Some(c.value), Empty) else (None, c)
  }

  /** Checking twice against an unchanged channel is checking once. */
  lemma CheckIdempotent<T>(i: Inner<T>, s: ChannelState<T>)
    ensures Checked(Checked(i, s), s) == Checked(i, s)
  {
  }

  /** A repeated `get` returns the same value and leaves the same state. */
  lemma GetRepeatable<T>(i: Inner<T>, s: ChannelState<T>)
    ensures GetOf(GetOf(i, s).1, s) == GetOf(i, s)
  {
    CheckIdempotent(i, s);
  }

  /** A second `take` returns `None`, whatever the channel does in between. */
  lemma TakeTwice<T>(i: Inner<T>, s: ChannelState<T>, s': ChannelState<T>)
    requires TakeOf(i, s).0.Some?
    ensures TakeOf(TakeOf(i, s).1, s') == (None, Empty)
  {
  }

  /** What a promise's owner can do to it, together with the channel state at that moment. */
  datatype Event<T> = OnCheck(s: ChannelState<T>) | OnGet(s: ChannelState<T>) | OnTake(s: ChannelState<T>)

  function Apply<T(==)>(i: Inner<T>, e: Event<T>): Inner<T>
  {
    match e
    case OnCheck(s) => Checked(i, s)
    case OnGet(s) => GetOf(i, s).1
    case OnTake(s) => TakeOf(i, s).1
  }

  function Run<T(==)>(i: Inner<T>, es: seq<Event<T>>): Inner<T>
    decreases |es|
  {
    if es == [] then i else Run(Apply(i, es[0]), es[1..])
  }

  /** Once resolved, a promise never returns to `Pending`, whatever events follow. */
  lemma {:induction false} NeverBackToPending<T>(i: Inner<T>, es: seq<Event<T>>)
    requires !i.Pending?
    ensures !Run(i, es).Pending?
    decreases |es|
  {
    if es != [] {
      NeverBackToPending(Apply(i, es[0]), es[1..]);
    }
  }

  /** An empty promise stays empty. */
  lemma {:induction false} EmptyStaysEmpty<T>(i: Inner<T>, es: seq<Event<T>>)
    requires i.Empty?
    ensures Run(i, es) == Empty
    decreases |es|
  {
    if es != [] {
      EmptyStaysEmpty(Apply(i, es[0]), es[1..]);
    }
  }

  /** A promise that is still pending after any events was never checked against a settled channel. */
  lemma {:induction false} PendingMeansWaiting<T>(i: Inner<T>, es: seq<Event<T>>)
    requires Run(i, es).Pending?
    ensures Run(i, es) == i
    ensures forall k :: 0 <= k < |es| ==> es[k].s.Waiting?
    decreases |es|
  {
    if es != [] {
      if !Apply(i, es[0]).Pending? {
        NeverBackToPending(Apply(i, es[0]), es[1..]);
      }
      PendingMeansWaiting(Apply(i, es[0]), es[1..]);
      assert forall k :: 1 <= k < |es| ==> es[k] == es[1..][k - 1];
    }
  }

  /** What `poll` reports for each state; `PollPanicked` is the panic of a receiver polled after completion. */
  datatype PollResult<T> = PollReady(value: T) | PollPending | PollPanicked

  /** The receiver's `poll`, mapped to an option (an assumption about the library, see above). */
  function RecvPoll<T>(s: ChannelState<T>): (p: PollResult<Option<T>>)
    ensures p.PollPanicked? <==> s.Consumed?
    ensures p.PollPending? <==> s.Waiting?
    ensures p == PollReady(None) <==> s.Closed?
    ensures s.HasValue? <==> p.PollReady? && p.value.Some?
    ensures s.HasValue? ==> p.value.value == s.value
  {
    match s
    case Waiting => PollPending
    case HasValue(v) => PollReady(Some(v))
    case Closed => PollReady(None)
    case Consumed => PollPanicked
  }

  /** The channel after the receiver's `poll`: a value is taken out, anything else stays. */
  function AfterRecvPoll<T>(s: ChannelState<T>): (s': ChannelState<T>)
    ensures s.HasValue? ==> s' == Consumed
    ensures !s.HasValue? ==> s' == s
  {
    if s.HasValue? then Consumed else s
  }

  /** `poll` seen through `check_rx`: waiting is `Pending`, a value is `Some`, empty is `None`. */
  function PollView<T>(i: Inner<T>): PollResult<Option<T>>
  {
    match i
    case Pending(_) => PollPending
    case Ready(x) => PollReady(Some(x))
    case Empty => PollReady(None)
  }

  /** The serialised form of a checked promise: its value if ready, nothing otherwise. */
  function SerializedForm<T>(i: Inner<T>): Option<T>
  {
    if i.Ready? then Some(i.value) else None
  }

  /** Deserialising: a value gives a ready promise, nothing gives an empty one. */
  function DeserializedInner<T>(o: Option<T>): (i: Inner<T>)
    ensures !i.Pending?
  {
    if o.Some? then Ready(o.value) else Empty
  }

  /** Serialising a deserialised promise gives back exactly what was read. */
  lemma SerializeDeserialize<T>(o: Option<T>)
    ensures SerializedForm(DeserializedInner(o)) == o
  {
  }

  /**
   * Deserialising a serialised promise keeps a ready value and turns
   * anything else (pending or empty) into an empty promise.
   */
  lemma DeserializeSerialize<T>(i: Inner<T>, s: ChannelState<T>)
    ensures var c := Checked(i, s);
      DeserializedInner(SerializedForm(c)) == (if c.Ready? then c else Empty)
  {
  }

  // ---------------------------------------------------------------------------
  // The promise object
  // ---------------------------------------------------------------------------

  class Promise<T(==)> {
    var inner: Inner<T>

    /** The channel the promise reads, while it is pending. */
    function Frame(): set<object>
      reads this
    {
      if inner.Pending? then {inner.rx} else {}
    }

    /** The channel's current state while pending (`Waiting` stands in once the promise has settled). */
    function ChannelNow(): ChannelState<T>
      reads this, Frame()
    {
      if inner.Pending? then inner.rx.state else Waiting
    }

    /** `new`: a promise pending on `rx`. */
    constructor New(rx: OneShot<T>)
      ensures inner == Pending(rx)
    {
      inner := Pending(rx);
    }

    /** `ready`: a promise holding `v`. */
    constructor MakeReady(v: T)
      ensures inner == Ready(v)
    {
      inner := Ready(v);
    }

    /** `empty`: a promise that never resolves. */
    constructor MakeEmpty()
      ensures inner == Empty
    {
      inner := Empty;
    }

    /** `check_rx`. */
    method CheckRx()
      modifies this
      ensures inner == Checked(old(inner), old(ChannelNow()))
    {
      match inner {
        case Pending(rx) =>
          match TryRecv(rx.state) {
            case Received(x) => inner := Ready(x);
            case NothingYet =>
            case SenderClosed => inner := Empty;
          }
        case Ready(_) =>
        case Empty =>
      }
    }

    /** `is_ready`: whether the checked promise holds a value. */
    method IsReady() returns (b: bool)
      modifies this
      ensures inner == Checked(old(inner), old(ChannelNow()))
      ensures b <==> inner.Ready?
    {
      CheckRx();
      b := inner.Ready?;
    }

    /** `is_empty`: whether the checked promise will never resolve; never true together with `is_ready`. */
    method IsEmpty() returns (b: bool)
      modifies this
      ensures inner == Checked(old(inner), old(ChannelNow()))
      ensures b <==> inner.Empty?
      ensures b ==> !inner.Ready?
    {
      CheckRx();
      b := inner.Empty?;
    }

    /** `get`. */
    method Get() returns (r: Option<T>)
      modifies this
      ensures (r, inner) == GetOf(old(inner), old(ChannelNow()))
    {
      CheckRx();
      match inner {
        case Ready(x) => r := Some(x);
        case Pending(_) => r := None;
        case Empty => r := None;
      }
    }

    /** `take`: checks, asks `is_ready` (which checks again), then swaps in `Empty`. */
    method Take() returns (r: Option<T>)
      modifies this
      ensures (r, inner) == TakeOf(old(inner), old(ChannelNow()))
    {
      CheckRx();
      ghost var afterCheck := inner;
      var ready := IsReady();
      assert inner == afterCheck;
      if ready {
        var previous := inner;
        inner := Empty;
        if previous.Ready? {
          return Some(previous.value);
        }
      }
      r := None;
    }

    /**
     * `poll`.  It reads the state as it is, without checking first: ready
     * gives the value, empty gives `None`, and pending polls the receiver,
     * which takes a value out of the channel.  The promise itself stays as
     * it was, so a pending promise whose value was polled out later checks
     * as `Empty`.  Short of a consumed channel, what it reports is what
     * `check_rx` would have settled on.
     */
    method Poll() returns (p: PollResult<Option<T>>)
      modifies Frame()
      ensures inner == old(inner)
      ensures inner.Ready? ==> p == PollReady(Some(inner.value))
      ensures inner.Empty? ==> p == PollReady(None)
      ensures inner.Pending? ==> p == RecvPoll(old(inner.rx.state))
      ensures inner.Pending? ==> inner.rx.state == AfterRecvPoll(old(inner.rx.state))
      ensures !old(ChannelNow()).Consumed? ==> p == PollView(Checked(inner, old(ChannelNow())))
    {
      match inner {
        case Ready(x) => p := PollReady(Some(x));
        case Empty => p := PollReady(None);
        case Pending(rx) =>
          p := RecvPoll(rx.state);
          rx.state := AfterRecvPoll(rx.state);
      }
    }

    /** `serialize`: what `get` returns. */
    method Serialize() returns (o: Option<T>)
      modifies this
      ensures inner == Checked(old(inner), old(ChannelNow()))
      ensures o == SerializedForm(inner)
    {
      o := Get();
    }
  }

  /** `channel`: a fresh sender and a promise pending on its receiver. */
  method Channel<T(==)>() returns (tx: OneShot<T>, p: Promise<T>)
    ensures fresh(tx) && fresh(p)
    ensures tx.state == Waiting && p.inner == Pending(tx)
  {
    tx := new OneShot<T>();
    p := new Promise<T>.New(tx);
  }

  /** `deserialize`: a value gives a ready promise, nothing an empty one. */
  method Deserialize<T(==)>(o: Option<T>) returns (p: Promise<T>)
    ensures fresh(p)
    ensures p.inner == DeserializedInner(o)
  {
    if o.Some? {
      p := new Promise<T>.MakeReady(o.value);
    } else {
      p := new Promise<T>.MakeEmpty();
    }
  }

  /** `?` on an `Err(e)` inside a function returning a promise of a result: a ready `Err(from(e))`. */
  method FromResultResidual<T(==), E, F(==)>(e: E, from: E -> F) returns (p: Promise<Result<T, F>>)
    ensures fresh(p)
    ensures p.inner == Ready(Err(from(e)))
  {
    p := new Promise<Result<T, F>>.MakeReady(Err(from(e)));
  }

  /** `?` on a `None` inside a function returning a promise of an option: a ready `None`. */
  method FromOptionResidual<T(==)>() returns (p: Promise<Option<T>>)
    ensures fresh(p)
    ensures p.inner == Ready(None)
  {
    p := new Promise<Option<T>>.MakeReady(None);
  }

  /** A promise on a channel that got a value: `get` sees it, and so does a second `get`. */
  method SentThenGetTwice<T(==)>(v: T) returns (first: Option<T>, second: Option<T>)
    ensures first == Some(v) && second == Some(v)
  {
    var tx, p := Channel<T>();
    var sent := SendValue(tx, v);
    first := p.Get();
    second := p.Get();
  }

  /** Polling a pending promise takes the value out of its channel: a later `get` gives nothing and leaves it empty. */
  method SentPolledThenGet<T(==)>(v: T) returns (polled: PollResult<Option<T>>, got: Option<T>, empty: bool)
    ensures polled == PollReady(Some(v))
    ensures got == None && empty
  {
    var tx, p := Channel<T>();
    var sent := SendValue(tx, v);
    polled := p.Poll();
    got := p.Get();
    empty := p.IsEmpty();
  }

  /** Polling a pending promise again after it yielded its value panics. */
  method SentPolledTwice<T(==)>(v: T) returns (first: PollResult<Option<T>>, second: PollResult<Option<T>>)
    ensures first == PollReady(Some(v)) && second == PollPanicked
  {
    var tx, p := Channel<T>();
    var sent := SendValue(tx, v);
    first := p.Poll();
    second := p.Poll();
  }

  /** A promise whose sender was dropped unsent is empty, and `take` gives nothing. */
  method DroppedThenTake<T(==)>() returns (empty: bool, taken: Option<T>)
    ensures empty && taken == None
  {
    var tx, p := Channel<T>();
    DropSender(tx);
    empty := p.IsEmpty();
    taken := p.Take();
  }
}

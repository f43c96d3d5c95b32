/**
  A generic server: the loop that serves its requests, and the calls it makes.
*/
module GenServers {
  import opened ActorControl
  import opened Collections

  type State(==, !new)
  type Request(==, !new)
  type Response(==, !new)

  datatype Message =
    | Call(caller: Ref, id: nat, request: Request)
    | Cast(request: Request)
    | Reply(id: nat, response: Response)
    | Exit
    | Down

  datatype Handlers = Handlers(call: (State, Request) -> (State, Response), cast: (State, Request) -> State)

  // A reply that was sent: to whom and for which request.
  datatype Sent = Sent(caller: Ref, id: nat, response: Response)

  datatype Served = Served(state: State, replies: seq<Sent>, stopped: bool)

  // What dispatching a message does to a server.
  function Handle(h: Handlers, s: Served, m: Message): Served {
    match m
    case Call(caller, id, request) =>
      var (state, response) := h.call(s.state, request);
      s.(state := state, replies := s.replies + [Sent(caller, id, response)])
    case Cast(request) => s.(state := h.cast(s.state, request))
    case Reply(_, _) => s
    case Exit => s.(stopped := true)
    case Down => s
  }

  // ----- the reference: a left fold, cut at the first exit signal

  function Fold(h: Handlers, initial: State, ms: seq<Message>): Served {
    if ms == [] then Served(initial, [], false)
    else Handle(h, Fold(h, initial, ms[..|ms| - 1]), ms[|ms| - 1])
  }

  function UntilExit(ms: seq<Message>): seq<Message> {
    if ms == [] then []
    else if ms[0].Exit? then [ms[0]]
    else [ms[0]] + UntilExit(ms[1..])
  }

  // Messages that are not for the serving loop left out.
  function Requests(ms: seq<Message>): seq<Message> {
    if ms == [] then []
    else Requests(ms[..|ms| - 1]) + if ms[|ms| - 1].Reply? || ms[|ms| - 1].Down? then [] else [ms[|ms| - 1]]
  }

  lemma FoldSnoc(h: Handlers, initial: State, ms: seq<Message>, m: Message)
    ensures Fold(h, initial, ms + [m]) == Handle(h, Fold(h, initial, ms), m)
  {
  }

  // Replies and down signals make no difference.
  lemma {:induction false} OnlyRequestsMatter(h: Handlers, initial: State, ms: seq<Message>)
    ensures Fold(h, initial, Requests(ms)) == Fold(h, initial, ms)
    decreases |ms|
  {
    if ms != [] {
      var front, last := ms[..|ms| - 1], ms[|ms| - 1];
      OnlyRequestsMatter(h, initial, front);
      if last.Reply? || last.Down? {
        assert Requests(ms) == Requests(front);
      } else {
        FoldSnoc(h, initial, Requests(front), last);
      }
    }
  }

  // ----- the same from the handlers alone

  // The states a server goes through: each call and each cast runs its handler, nothing else does.
  ghost predicate HandledBy(h: Handlers, initial: State, ms: seq<Message>, st: seq<State>) {
    && |st| == |ms| + 1 && st[0] == initial
    && (forall k :: 0 <= k < |ms| && ms[k].Call? ==> st[k + 1] == h.call(st[k], ms[k].request).0)
    && (forall k :: 0 <= k < |ms| && ms[k].Cast? ==> st[k + 1] == h.cast(st[k], ms[k].request))
    && (forall k :: 0 <= k < |ms| && !ms[k].Call? && !ms[k].Cast? ==> st[k + 1] == st[k])
  }

  // The replies, in order: one for each call, to its caller, with its number and with the response
  // of its handler. `at` are the places of the calls.
  ghost predicate RepliedBy(h: Handlers, ms: seq<Message>, st: seq<State>, replies: seq<Sent>, at: seq<nat>)
    requires |st| == |ms| + 1
  {
    && |at| == |replies| && Positions(at, |ms|)
    && (forall k :: 0 <= k < |ms| ==> (ms[k].Call? <==> k in at))
    && forall j :: 0 <= j < |at| && ms[at[j]].Call? ==>
         replies[j] == Sent(ms[at[j]].caller, ms[at[j]].id, h.call(st[at[j]], ms[at[j]].request).1)
  }

  // The fold is what the handlers alone say.
  lemma {:induction false} FoldIsHandled(h: Handlers, initial: State, ms: seq<Message>) returns (st: seq<State>, at: seq<nat>)
    ensures HandledBy(h, initial, ms, st) && Fold(h, initial, ms).state == st[|ms|]
    ensures RepliedBy(h, ms, st, Fold(h, initial, ms).replies, at)
    decreases |ms|
  {
    if ms == [] {
      st, at := [initial], [];
    } else {
      var n := |ms| - 1;
      var front, last := ms[..n], ms[n];
      assert ms == front + [last];
      var st', at' := FoldIsHandled(h, initial, front);
      st, at := MoreIsHandled(h, initial, front, last, st', at');
    }
  }

  lemma MoreIsHandled(h: Handlers, initial: State, ms: seq<Message>, m: Message, st: seq<State>, at: seq<nat>)
    returns (st': seq<State>, at': seq<nat>)
    requires HandledBy(h, initial, ms, st) && Fold(h, initial, ms).state == st[|ms|]
    requires RepliedBy(h, ms, st, Fold(h, initial, ms).replies, at)
    ensures HandledBy(h, initial, ms + [m], st') && Fold(h, initial, ms + [m]).state == st'[|ms| + 1]
    ensures RepliedBy(h, ms + [m], st', Fold(h, initial, ms + [m]).replies, at')
  {
    var state := Handle(h, Fold(h, initial, ms), m).state;
    st', at' := st + [state], if m.Call? then at + [|ms|] else at;
    FoldSnoc(h, initial, ms, m);
    OneMoreHandled(h, initial, ms, m, st, state);
    OneMoreReplied(h, ms, m, st, state, Fold(h, initial, ms).replies, at);
  }

  lemma {:induction false} FoldStops(h: Handlers, initial: State, ms: seq<Message>)
    ensures Fold(h, initial, ms).stopped <==> exists k :: 0 <= k < |ms| && ms[k].Exit?
    decreases |ms|
  {
    if ms != [] {
      FoldStops(h, initial, ms[..|ms| - 1]);
    }
  }

  lemma OneMoreHandled(h: Handlers, initial: State, ms: seq<Message>, m: Message, st: seq<State>, state: State)
    requires HandledBy(h, initial, ms, st)
    requires state == match m
                      case Call(_, _, request) => h.call(st[|ms|], request).0
                      case Cast(request) => h.cast(st[|ms|], request)
                      case _ => st[|ms|]
    ensures HandledBy(h, initial, ms + [m], st + [state])
  {
  }

  lemma OneMoreReplied(h: Handlers, ms: seq<Message>, m: Message, st: seq<State>, state: State, replies: seq<Sent>, at: seq<nat>)
    requires |st| == |ms| + 1 && RepliedBy(h, ms, st, replies, at)
    ensures !m.Call? ==> RepliedBy(h, ms + [m], st + [state], replies, at)
    ensures m.Call? ==> RepliedBy(h, ms + [m], st + [state],
                                  replies + [Sent(m.caller, m.id, h.call(st[|ms|], m.request).1)], at + [|ms|])
  {
  }

  // There is one such history, and the fold goes through it.
  lemma {:induction false} FoldAt(h: Handlers, initial: State, ms: seq<Message>, st: seq<State>, k: nat)
    requires HandledBy(h, initial, ms, st) && k <= |ms|
    ensures Fold(h, initial, ms[..k]).state == st[k]
    decreases k
  {
    if k > 0 {
      FoldAt(h, initial, ms, st, k - 1);
      assert ms[..k][..k - 1] == ms[..k - 1];
    }
  }

  lemma {:induction false} UntilExitWithout(ms: seq<Message>)
    requires forall k :: 0 <= k < |ms| ==> !ms[k].Exit?
    ensures UntilExit(ms) == ms
    decreases |ms|
  {
    if ms != [] {
      UntilExitWithout(ms[1..]);
    }
  }

  lemma {:induction false} UntilExitAt(ms: seq<Message>, n: nat)
    requires n < |ms| && ms[n].Exit? && forall k :: 0 <= k < n ==> !ms[k].Exit?
    ensures UntilExit(ms) == ms[..n + 1]
    decreases n
  {
    if n > 0 {
      UntilExitAt(ms[1..], n - 1);
      assert ms[..n + 1] == [ms[0]] + ms[1..][..n];
    }
  }

  // ----- the server

  // The messages of the mailbox are taken one by one, in order, until an exit signal. Every kind of
  // message is accepted, and then selective receive makes the mailbox a queue, as
  // `Mailboxes.TakingAllIsAQueue` shows.
  datatype Server = Server(served: Served, mailbox: seq<Message>, arrivals: seq<Message>)

  datatype Action = Arrive(message: Message) | Dispatch

  // The loop dispatches until told to stop, and waits while the mailbox is empty.
  predicate Enabled(s: Server, a: Action) {
    a.Arrive? || (!s.served.stopped && s.mailbox != [])
  }

  function Step(h: Handlers, s: Server, a: Action): Server
    requires Enabled(s, a)
  {
    match a
    case Arrive(m) => s.(mailbox := s.mailbox + [m], arrivals := s.arrivals + [m])
    case Dispatch => s.(served := Handle(h, s.served, s.mailbox[0]), mailbox := s.mailbox[1..])
  }

  function Start(initial: State): Server {
    Server(Served(initial, [], false), [], [])
  }

  // `n` messages have been dispatched: none of them but perhaps the last is an exit signal.
  ghost predicate Inv(h: Handlers, initial: State, s: Server) {
    var n := |s.arrivals| - |s.mailbox|;
    && 0 <= n
    && s.mailbox == s.arrivals[n..]
    && s.served == Fold(h, initial, s.arrivals[..n])
    && (forall k :: 0 <= k < n - 1 ==> !s.arrivals[k].Exit?)
    && (s.served.stopped <==> n > 0 && s.arrivals[n - 1].Exit?)
  }

  lemma StepKeepsInv(h: Handlers, initial: State, s: Server, a: Action)
    requires Inv(h, initial, s) && Enabled(s, a)
    ensures Inv(h, initial, Step(h, s, a))
  {
    match a
    case Arrive(m) => ArriveKeepsInv(h, initial, s, m);
    case Dispatch => DispatchKeepsInv(h, initial, s);
  }

  lemma ArriveKeepsInv(h: Handlers, initial: State, s: Server, m: Message)
    requires Inv(h, initial, s)
    ensures Inv(h, initial, Step(h, s, Arrive(m)))
  {
    var n, s' := |s.arrivals| - |s.mailbox|, Step(h, s, Arrive(m));
    AppendAfter(s.arrivals, m, n);
    assert |s'.arrivals| - |s'.mailbox| == n && s'.arrivals[..n] == s.arrivals[..n];
  }

  lemma DispatchKeepsInv(h: Handlers, initial: State, s: Server)
    requires Inv(h, initial, s) && Enabled(s, Dispatch)
    ensures Inv(h, initial, Step(h, s, Dispatch))
  {
    var n := |s.arrivals| - |s.mailbox|;
    SplitAt(s.arrivals, n);
    FoldSnoc(h, initial, s.arrivals[..n], s.arrivals[n]);
  }

  lemma AppendAfter(ms: seq<Message>, m: Message, n: nat)
    requires n <= |ms|
    ensures (ms + [m])[..n] == ms[..n] && (ms + [m])[n..] == ms[n..] + [m]
  {
  }

  lemma SplitAt(ms: seq<Message>, n: nat)
    requires n < |ms|
    ensures ms[n..][0] == ms[n] && ms[n..][1..] == ms[n + 1..] && ms[..n + 1] == ms[..n] + [ms[n]]
  {
  }

  // A server that has stopped, or has nothing to dispatch, is where the fold ends.
  lemma ServedUntilExit(h: Handlers, initial: State, s: Server)
    requires Inv(h, initial, s) && (s.served.stopped || s.mailbox == [])
    ensures s.served == Fold(h, initial, UntilExit(s.arrivals))
    ensures s.served.stopped <==> exists k :: 0 <= k < |s.arrivals| && s.arrivals[k].Exit?
  {
    var n := |s.arrivals| - |s.mailbox|;
    if s.served.stopped {
      UntilExitAt(s.arrivals, n - 1);
    } else {
      assert s.arrivals[..n] == s.arrivals;
      UntilExitWithout(s.arrivals);
    }
  }

  ghost predicate IsRun(h: Handlers, states: seq<Server>, actions: seq<Action>) {
    && |states| == |actions| + 1
    && forall i :: 0 <= i < |actions| ==> Enabled(states[i], actions[i]) && states[i + 1] == Step(h, states[i], actions[i])
  }

  lemma {:induction false} RunKeepsInv(h: Handlers, initial: State, states: seq<Server>, actions: seq<Action>, i: nat)
    requires IsRun(h, states, actions) && states[0] == Start(initial) && i <= |actions|
    ensures Inv(h, initial, states[i])
  {
    if i > 0 {
      RunKeepsInv(h, initial, states, actions, i - 1);
      assert states[i - 1 + 1] == Step(h, states[i - 1], actions[i - 1]);
      StepKeepsInv(h, initial, states[i - 1], actions[i - 1]);
    }
  }

  // However arrivals and dispatches interleave, a server that has stopped or has caught up with its
  // mailbox is where the fold of its handlers over all arrivals up to the first exit signal ends,
  // and has sent exactly the replies of that fold, in that order.
  lemma ServingIsAFold(h: Handlers, initial: State, states: seq<Server>, actions: seq<Action>)
    requires IsRun(h, states, actions) && states[0] == Start(initial)
    requires states[|actions|].served.stopped || states[|actions|].mailbox == []
    ensures states[|actions|].served == Fold(h, initial, UntilExit(states[|actions|].arrivals))
    ensures states[|actions|].served == Fold(h, initial, Requests(UntilExit(states[|actions|].arrivals)))
    ensures states[|actions|].served.stopped <==> exists k :: 0 <= k < |states[|actions|].arrivals| && states[|actions|].arrivals[k].Exit?
  {
    var s := states[|actions|];
    RunKeepsInv(h, initial, states, actions, |actions|);
    ServedUntilExit(h, initial, s);
    OnlyRequestsMatter(h, initial, UntilExit(s.arrivals));
  }

  // The messages that have arrived, in order.
  function Arrived(actions: seq<Action>): seq<Message> {
    if actions == [] then []
    else
      var last := actions[|actions| - 1];
      Arrived(actions[..|actions| - 1]) + if last.Arrive? then [last.message] else []
  }

  lemma {:induction false} ArrivalsAreArrived(h: Handlers, states: seq<Server>, actions: seq<Action>, i: nat)
    requires IsRun(h, states, actions) && states[0].arrivals == [] && i <= |actions|
    ensures states[i].arrivals == Arrived(actions[..i])
  {
    if i > 0 {
      ArrivalsAreArrived(h, states, actions, i - 1);
      assert states[i - 1 + 1] == Step(h, states[i - 1], actions[i - 1]);
      assert actions[..i][..i - 1] == actions[..i - 1];
    }
  }

  // In every run, however arrivals and dispatches interleave: the first `n` messages that arrived
  // have been taken off the mailbox, up to an exit signal at most; the handlers have been run for the
  // calls and the casts among them, in order; one reply has been sent for each call; and an exit
  // signal has stopped the server.
  lemma ServesInOrder(h: Handlers, initial: State, states: seq<Server>, actions: seq<Action>)
    returns (n: nat, st: seq<State>, at: seq<nat>)
    requires IsRun(h, states, actions) && states[0] == Start(initial)
    ensures var s, arrived := states[|actions|], Arrived(actions);
            && n <= |arrived| && s.mailbox == arrived[n..]
            && HandledBy(h, initial, arrived[..n], st) && s.served.state == st[n]
            && RepliedBy(h, arrived[..n], st, s.served.replies, at)
            && (forall k :: 0 <= k < n - 1 ==> !arrived[k].Exit?)
            && (s.served.stopped <==> n > 0 && arrived[n - 1].Exit?)
  {
    var s := states[|actions|];
    RunKeepsInv(h, initial, states, actions, |actions|);
    ArrivalsAreArrived(h, states, actions, |actions|);
    assert actions[..|actions|] == actions;
    n := |s.arrivals| - |s.mailbox|;
    st, at := FoldIsHandled(h, initial, s.arrivals[..n]);
    FoldStops(h, initial, s.arrivals[..n]);
  }

  // ----- the object

  class GenServer {
    const handlers: Handlers
    ghost const initial: State
    var state: State
    var mailbox: seq<Message>
    var replies: seq<Sent>
    var stopped: bool
    ghost var arrivals: seq<Message>

    ghost function View(): Server
      reads this
    {
      Server(Served(state, replies, stopped), mailbox, arrivals)
    }

    ghost predicate Valid()
      reads this
    {
      Inv(handlers, initial, View())
    }

    constructor (handlers: Handlers, state: State)
      ensures Valid() && View() == Start(state) && this.handlers == handlers && initial == state
    {
      this.handlers, this.initial, this.state := handlers, state, state;
      mailbox, replies, stopped, arrivals := [], [], false, [];
    }

    method Enqueue(m: Message)
      requires Valid()
      modifies this`mailbox, this`arrivals
      ensures Valid() && View() == Step(handlers, old(View()), Arrive(m))
    {
      StepKeepsInv(handlers, initial, View(), Arrive(m));
      mailbox, arrivals := mailbox + [m], arrivals + [m];
      assert View() == Step(handlers, old(View()), Arrive(m));
    }

    method DispatchOne() returns (shouldStop: bool)
      requires Valid() && !stopped && mailbox != []
      modifies this`state, this`mailbox, this`replies, this`stopped
      ensures Valid() && View() == Step(handlers, old(View()), Dispatch) && shouldStop == stopped
    {
      StepKeepsInv(handlers, initial, View(), Dispatch);
      var m := mailbox[0];
      mailbox := mailbox[1..];
      match m {
        case Call(caller, id, request) =>
          var (next, response) := handlers.call(state, request);
          state := next;
          replies := replies + [Sent(caller, id, response)];
        case Cast(request) => state := handlers.cast(state, request);
        case Exit => stopped := true;
        case _ =>
      }
      shouldStop := stopped;
    }

    // Serves until told to stop or until it has to wait for a message.
    method Serve()
      requires Valid() && !stopped
      modifies this`state, this`mailbox, this`replies, this`stopped
      ensures Valid() && (stopped || mailbox == []) && arrivals == old(arrivals)
      ensures View().served == Fold(handlers, initial, UntilExit(arrivals))
    {
      while mailbox != []
        invariant Valid() && !stopped && arrivals == old(arrivals)
        decreases |mailbox|
      {
        var shouldStop := DispatchOne();
        if shouldStop {
          ServedUntilExit(handlers, initial, View());
          return;
        }
      }
      ServedUntilExit(handlers, initial, View());
    }
  }

  // ----- the calling side, which takes only replies

  // The replies among the messages, and what is left once the first `n` of them are taken out.
  function Replies(ms: seq<Message>): seq<Message> {
    if ms == [] then [] else (if ms[0].Reply? then [ms[0]] else []) + Replies(ms[1..])
  }

  function WithoutReplies(ms: seq<Message>, n: nat): seq<Message> {
    if ms == [] || n == 0 then ms
    else if ms[0].Reply? then WithoutReplies(ms[1..], n - 1)
    else [ms[0]] + WithoutReplies(ms[1..], n)
  }

  lemma {:induction false} RepliesAppend(ms: seq<Message>, more: seq<Message>)
    ensures Replies(ms + more) == Replies(ms) + Replies(more)
    decreases |ms|
  {
    if ms == [] {
      assert ms + more == more;
    } else {
      RepliesAppend(ms[1..], more);
      assert (ms + more)[1..] == ms[1..] + more;
      Associative(if ms[0].Reply? then [ms[0]] else [], Replies(ms[1..]), Replies(more));
    }
  }

  lemma {:induction false} WithoutRepliesAppend(ms: seq<Message>, more: seq<Message>, n: nat)
    requires n <= |Replies(ms)|
    ensures WithoutReplies(ms + more, n) == WithoutReplies(ms, n) + more
    decreases |ms|
  {
    if ms != [] && n > 0 {
      WithoutRepliesAppend(ms[1..], more, if ms[0].Reply? then n - 1 else n);
      assert (ms + more)[1..] == ms[1..] + more;
    }
  }

  lemma {:induction false} RepliesLeft(ms: seq<Message>, n: nat)
    requires n <= |Replies(ms)|
    ensures Replies(WithoutReplies(ms, n)) == Replies(ms)[n..]
    decreases |ms|
  {
    if ms != [] && n > 0 {
      if ms[0].Reply? {
        RepliesLeft(ms[1..], n - 1);
      } else {
        var rest := WithoutReplies(ms[1..], n);
        RepliesLeft(ms[1..], n);
        assert WithoutReplies(ms, n) == [ms[0]] + rest && ([ms[0]] + rest)[1..] == rest;
      }
    }
  }

  // Taking out one more reply is taking the first out of what is left.
  lemma {:induction false} WithoutMore(ms: seq<Message>, n: nat)
    requires n < |Replies(ms)|
    ensures WithoutReplies(WithoutReplies(ms, n), 1) == WithoutReplies(ms, n + 1)
    decreases |ms|
  {
    if n > 0 {
      if ms[0].Reply? {
        WithoutMore(ms[1..], n - 1);
      } else {
        WithoutMore(ms[1..], n);
      }
    }
  }

  lemma {:induction false} NothingWithout(ms: seq<Message>, n: nat)
    requires Replies(ms) == []
    ensures WithoutReplies(ms, n) == ms
    decreases |ms|
  {
    if ms != [] && n > 0 {
      NothingWithout(ms[1..], n);
    }
  }

  lemma {:induction false} NoReplies(ms: seq<Message>)
    requires forall k :: 0 <= k < |ms| ==> !ms[k].Reply?
    ensures Replies(ms) == []
    decreases |ms|
  {
    if ms != [] {
      NoReplies(ms[1..]);
    }
  }

  lemma {:induction false} FirstReply(ms: seq<Message>, k: nat)
    requires k < |ms| && ms[k].Reply? && forall j :: 0 <= j < k ==> !ms[j].Reply?
    ensures Replies(ms) != [] && Replies(ms)[0] == ms[k] && WithoutReplies(ms, 1) == ms[..k] + ms[k + 1..]
    decreases k
  {
    if k > 0 {
      FirstReply(ms[1..], k - 1);
      assert ms[..k] + ms[k + 1..] == [ms[0]] + (ms[1..][..k - 1] + ms[1..][k..]);
    }
  }

  function Flatten(batches: seq<seq<Message>>): seq<Message> {
    if batches == [] then [] else Flatten(batches[..|batches| - 1]) + batches[|batches| - 1]
  }

  // All that a caller has had in its mailbox by the end of its `n`-th receive.
  function Heard(mailbox: seq<Message>, arrivals: seq<seq<Message>>, n: nat): seq<Message>
    requires n <= |arrivals|
  {
    mailbox + Flatten(arrivals[..n])
  }

  lemma HeardMore(mailbox: seq<Message>, arrivals: seq<seq<Message>>, n: nat)
    requires n < |arrivals|
    ensures Heard(mailbox, arrivals, n + 1) == Heard(mailbox, arrivals, n) + arrivals[n]
  {
    assert arrivals[..n + 1][..n] == arrivals[..n];
  }

  // What one more receive finds, in terms of all that has been heard.
  lemma ReceiveOneMore(mailbox: seq<Message>, arrivals: seq<seq<Message>>, n: nat)
    requires n < |arrivals| && n <= |Replies(Heard(mailbox, arrivals, n))|
    ensures var before, heard := Heard(mailbox, arrivals, n), Heard(mailbox, arrivals, n + 1);
            var all := WithoutReplies(before, n) + arrivals[n];
            && Replies(before) <= Replies(heard)
            && Replies(all) == Replies(heard)[n..]
            && WithoutReplies(all, 1) == WithoutReplies(heard, if Replies(all) == [] then n else n + 1)
  {
    var before, heard := Heard(mailbox, arrivals, n), Heard(mailbox, arrivals, n + 1);
    var all := WithoutReplies(before, n) + arrivals[n];
    HeardMore(mailbox, arrivals, n);
    RepliesAppend(before, arrivals[n]);
    WithoutRepliesAppend(before, arrivals[n], n);
    RepliesLeft(heard, n);
    if Replies(all) == [] {
      NothingWithout(all, 1);
    } else {
      WithoutMore(heard, n);
    }
  }

  datatype CallResult = Returned(response: Response) | CallTimeout | StillWaiting

  class Caller {
    var mailbox: seq<Message>
    var nextRequestId: nat

    constructor ()
      ensures mailbox == [] && nextRequestId == 0
    {
      mailbox, nextRequestId := [], 0;
    }

    // The request that is sent: its id is new.
    method BeginCall(self: Ref, request: Request) returns (id: nat, m: Message)
      modifies this`nextRequestId
      ensures id == old(nextRequestId) < nextRequestId && m == Call(self, id, request)
    {
      id := nextRequestId;
      nextRequestId := nextRequestId + 1;
      m := Call(self, id, request);
    }

    // One receive for replies: the first in the mailbox, once `arrived` is there too; none if the
    // receive expires.
    method ReceiveReply(arrived: seq<Message>) returns (reply: Option<Message>)
      modifies this`mailbox
      ensures var all := old(mailbox) + arrived;
              && reply == (if Replies(all) == [] then None else Some(Replies(all)[0]))
              && mailbox == WithoutReplies(all, 1)
      ensures reply.Some? ==> reply.value.Reply?
    {
      mailbox := mailbox + arrived;
      var k := 0;
      while k < |mailbox|
        invariant k <= |mailbox| && mailbox == old(mailbox) + arrived
        invariant forall j :: 0 <= j < k ==> !mailbox[j].Reply?
      {
        if mailbox[k].Reply? {
          FirstReply(mailbox, k);
          reply := Some(mailbox[k]);
          mailbox := mailbox[..k] + mailbox[k + 1..];
          return;
        }
        k := k + 1;
      }
      NoReplies(mailbox);
      NothingWithout(mailbox, 1);
      reply := None;
    }

    // The waiting loop of `call`, given the clock and what arrives until each receive ends. It
    // returns at the first reply with this id, unless before that a receive expires or the deadline
    // has passed. Replies to other calls are gone from the mailbox, all else is still there.
    method AwaitReply(id: nat, deadline: Time, clock: seq<Time>, arrivals: seq<seq<Message>>) returns (result: CallResult, n: nat)
      requires |clock| == |arrivals|
      modifies this`mailbox
      ensures n <= |arrivals|
      ensures DropsReplies(Replies(Heard(old(mailbox), arrivals, n)), n, id) && forall k :: 0 <= k < n ==> clock[k] <= deadline
      ensures result.StillWaiting? ==> n == |arrivals| && mailbox == WithoutReplies(Heard(old(mailbox), arrivals, n), n)
      ensures result.CallTimeout? ==>
                && n < |arrivals|
                && if deadline < clock[n] then mailbox == WithoutReplies(Heard(old(mailbox), arrivals, n), n)
                   else
                     && |Replies(Heard(old(mailbox), arrivals, n + 1))| == n
                     && mailbox == WithoutReplies(Heard(old(mailbox), arrivals, n + 1), n)
      ensures result.Returned? ==>
                && n < |arrivals| && clock[n] <= deadline
                && n < |Replies(Heard(old(mailbox), arrivals, n + 1))|
                && Replies(Heard(old(mailbox), arrivals, n + 1))[n] == Reply(id, result.response)
                && mailbox == WithoutReplies(Heard(old(mailbox), arrivals, n + 1), n + 1)
    {
      n := 0;
      assert Heard(mailbox, arrivals, 0) == mailbox;
      while n < |arrivals|
        invariant n <= |arrivals| && DropsReplies(Replies(Heard(old(mailbox), arrivals, n)), n, id)
        invariant mailbox == WithoutReplies(Heard(old(mailbox), arrivals, n), n)
        invariant forall k :: 0 <= k < n ==> clock[k] <= deadline
      {
        var remaining := deadline - clock[n];
        if remaining < 0 {
          return CallTimeout, n;
        }
        ReceiveOneMore(old(mailbox), arrivals, n);
        var reply := ReceiveReply(arrivals[n]);
        if reply.None? {
          return CallTimeout, n;
        }
        if reply.value.id == id {
          return Returned(reply.value.response), n;
        }
        n := n + 1;
      }
      result := StillWaiting;
    }
  }

  // The first `n` replies are for other calls.
  predicate DropsReplies(replies: seq<Message>, n: nat, id: nat) {
    n <= |replies| && forall k :: 0 <= k < n ==> replies[k].Reply? && replies[k].id != id
  }
}

/**
  Calls between any number of generic servers: which reply a call returns.
*/
module CallCorrelations {
  import opened ActorControl
  import opened Collections
  import opened GenServers

  // The handlers of every server.
  type HandlersOf = Ref -> Handlers

  datatype Actor = Actor(nextId: nat, calling: Option<nat>, mailbox: seq<Message>, served: Served)

  // What a server started with and what it has dispatched so far, in order.
  datatype History = History(initial: State, dispatched: seq<Message>)

  datatype Key = Key(caller: Ref, id: nat)
  datatype Made = Made(key: Key, target: Ref, request: Request)
  datatype Handled = Handled(key: Key, server: Ref, at: nat, request: Request, response: Response)
  datatype Ended = Ended(key: Key, response: Option<Response>)   // none: the call timed out

  // Every actor has one mailbox. A call puts a request with a new id into another actor's mailbox and
  // then takes replies, oldest first, dropping those with other ids, until its own comes or it gives
  // up. Actors may be slow, exit, and leave replies lying about; they do not forge replies.
  datatype System = System(
    actors: map<Ref, Actor>,
    nextRef: Ref,
    histories: map<Ref, History>,   // of every actor ever spawned
    made: seq<Made>,                // every call made
    handled: seq<Handled>,          // every reply sent, with the place of its request among those dispatched
    ended: seq<Ended>)              // every call that has ended

  predicate Shaped(s: System) {
    s.actors.Keys <= s.histories.Keys
  }

  function Deliver(s: System, to_: Ref, m: Message): System {
    if to_ !in s.actors then s
    else s.(actors := s.actors[to_ := s.actors[to_].(mailbox := s.actors[to_].mailbox + [m])])
  }

  function Remove(s: System, a: Ref, k: nat): System
    requires a in s.actors && k < |s.actors[a].mailbox|
  {
    var mailbox := s.actors[a].mailbox;
    s.(actors := s.actors[a := s.actors[a].(mailbox := mailbox[..k] + mailbox[k + 1..])])
  }

  function End(s: System, a: Ref, response: Option<Response>): System
    requires a in s.actors && s.actors[a].calling.Some?
  {
    s.(actors := s.actors[a := s.actors[a].(calling := None)],
       ended := s.ended + [Ended(Key(a, s.actors[a].calling.value), response)])
  }

  function Begun(s: System, c: Ref, target: Ref, request: Request): System
    requires c in s.actors
  {
    var id := s.actors[c].nextId;
    s.(actors := s.actors[c := s.actors[c].(nextId := id + 1, calling := Some(id))],
       made := s.made + [Made(Key(c, id), target, request)])
  }

  datatype Action =
    | BeginCall(actor: Ref, target: Ref, request: Request)
    | TakeReply(actor: Ref, k: nat)            // the calling actor takes the first reply in its mailbox
    | TimeOut(actor: Ref)
    | Serve(actor: Ref)                        // the server dispatches the message at the head of its mailbox
    | Discard(actor: Ref, k: nat)              // a message is taken for some other purpose
    | Post(target: Ref, message: Message)      // something that is neither a call nor a reply
    | Spawn(state: State)
    | Leave(actor: Ref)

  predicate Enabled(s: System, a: Action) {
    match a
    case BeginCall(c, _, _) => c in s.actors && s.actors[c].calling.None?
    case TakeReply(c, k) =>
      && c in s.actors && s.actors[c].calling.Some?
      && k < |s.actors[c].mailbox| && s.actors[c].mailbox[k].Reply?
      && forall j :: 0 <= j < k ==> !s.actors[c].mailbox[j].Reply?
    case TimeOut(c) => c in s.actors && s.actors[c].calling.Some?
    case Serve(c) => c in s.actors && s.actors[c].calling.None? && s.actors[c].mailbox != []
    case Discard(c, k) => c in s.actors && s.actors[c].calling.None? && k < |s.actors[c].mailbox|
    case Post(_, m) => !m.Call? && !m.Reply?
    case Spawn(_) => true
    case Leave(c) => c in s.actors
  }

  // Server `c` has dispatched `m`; a reply, if there is one, is yet to be sent.
  function Dispatched(h: HandlersOf, s: System, c: Ref, m: Message): System
    requires Shaped(s) && c in s.actors
  {
    var actor, history := s.actors[c], s.histories[c];
    s.(actors := s.actors[c := actor.(served := Handle(h(c), actor.served, m))],
       histories := s.histories[c := history.(dispatched := history.dispatched + [m])],
       handled := s.handled + if m.Call? then [AnswerTo(h, s, c, m)] else [])
  }

  function AnswerTo(h: HandlersOf, s: System, c: Ref, m: Message): Handled
    requires Shaped(s) && c in s.actors && m.Call?
  {
    Handled(Key(m.caller, m.id), c, |s.histories[c].dispatched|, m.request, h(c).call(s.actors[c].served.state, m.request).1)
  }

  function Step(h: HandlersOf, s: System, a: Action): System
    requires Shaped(s) && Enabled(s, a)
  {
    match a
    case BeginCall(c, target, request) =>
      Deliver(Begun(s, c, target, request), target, Call(c, s.actors[c].nextId, request))
    case TakeReply(c, k) =>
      var reply := s.actors[c].mailbox[k];
      var taken := Remove(s, c, k);
      if s.actors[c].calling == Some(reply.id) then End(taken, c, Some(reply.response)) else taken
    case TimeOut(c) => End(s, c, None)
    case Serve(c) =>
      var m := s.actors[c].mailbox[0];
      var served := Dispatched(h, Remove(s, c, 0), c, m);
      if m.Call? then Deliver(served, m.caller, Reply(m.id, AnswerTo(h, s, c, m).response)) else served
    case Discard(c, k) => Remove(s, c, k)
    case Post(target, m) => Deliver(s, target, m)
    case Spawn(state) =>
      s.(actors := s.actors[s.nextRef := Actor(0, None, [], Served(state, [], false))],
         histories := s.histories[s.nextRef := History(state, [])],
         nextRef := s.nextRef + 1)
    case Leave(c) => s.(actors := s.actors - {c})
  }

  // ----- the invariant

  // Ids are given out once: every call by `a` has an id below its counter.
  ghost predicate MadeInv(s: System) {
    && (forall i, j :: 0 <= i < j < |s.made| ==> s.made[i].key != s.made[j].key)
    && (forall i :: 0 <= i < |s.made| ==> s.made[i].key.caller < s.nextRef)
    && (forall i :: 0 <= i < |s.made| && s.made[i].key.caller in s.actors ==>
         s.made[i].key.id < s.actors[s.made[i].key.caller].nextId)
    && (forall a :: a in s.actors ==> a < s.nextRef)
  }

  // The reply answers a call that was made, dispatched by the server it was made to, with the
  // response of the handler in the state that everything dispatched before has led to.
  ghost predicate Answers(h: HandlersOf, histories: map<Ref, History>, r: Handled) {
    && r.server in histories
    && var history := histories[r.server];
    && r.at < |history.dispatched|
    && history.dispatched[r.at] == Call(r.key.caller, r.key.id, r.request)
    && r.response == h(r.server).call(Fold(h(r.server), history.initial, history.dispatched[..r.at]).state, r.request).1
  }

  ghost predicate HandledInv(h: HandlersOf, s: System) {
    && (forall i, j :: 0 <= i < j < |s.handled| ==> s.handled[i].key != s.handled[j].key)
    && (forall r :: r in s.handled ==> Made(r.key, r.server, r.request) in s.made)
    && (forall r :: r in s.handled ==> Answers(h, s.histories, r))
    && (forall a :: a in s.histories ==> AllAnswered(s.handled, a, s.histories[a].dispatched))
  }

  // Every call dispatched has been replied to.
  ghost predicate AllAnswered(handled: seq<Handled>, a: Ref, dispatched: seq<Message>) {
    forall k :: 0 <= k < |dispatched| && dispatched[k].Call? ==> Answered(handled, a, k, dispatched[k])
  }

  ghost predicate Answered(handled: seq<Handled>, a: Ref, k: nat, m: Message)
    requires m.Call?
  {
    exists i :: 0 <= i < |handled| && handled[i].key == Key(m.caller, m.id) && handled[i].server == a && handled[i].at == k
  }

  // Every server is where the fold of its handlers over what it has dispatched ends.
  ghost predicate ServedInv(h: HandlersOf, s: System) {
    && Shaped(s)
    && (forall a :: a in s.histories ==> a < s.nextRef)
    && (forall a :: a in s.actors ==> s.actors[a].served == Fold(h(a), s.histories[a].initial, s.histories[a].dispatched))
  }

  ghost predicate WasHandled(s: System, key: Key) {
    exists i :: 0 <= i < |s.handled| && s.handled[i].key == key
  }

  ghost predicate Replied(s: System, key: Key, response: Response) {
    exists i :: 0 <= i < |s.handled| && s.handled[i].key == key && s.handled[i].response == response
  }

  // A message in the mailbox of `a`: a call to `a` that nobody has handled, or a reply to a call of
  // `a` that somebody has.
  ghost predicate Genuine(s: System, a: Ref, m: Message) {
    match m
    case Call(caller, id, request) => Made(Key(caller, id), a, request) in s.made && !WasHandled(s, Key(caller, id))
    case Reply(id, response) => Replied(s, Key(a, id), response)
    case _ => true
  }

  ghost predicate MailboxInv(s: System, a: Ref, mailbox: seq<Message>) {
    && (forall k :: 0 <= k < |mailbox| ==> Genuine(s, a, mailbox[k]))
    && forall j, k :: 0 <= j < k < |mailbox| && mailbox[j].Call? && mailbox[k].Call? ==>
         Key(mailbox[j].caller, mailbox[j].id) != Key(mailbox[k].caller, mailbox[k].id)
  }

  ghost predicate MailboxesInv(s: System) {
    forall a :: a in s.actors ==> MailboxInv(s, a, s.actors[a].mailbox)
  }

  ghost predicate EndedInv(s: System) {
    && (forall i, j :: 0 <= i < j < |s.ended| ==> s.ended[i].key != s.ended[j].key)
    && (forall i :: 0 <= i < |s.ended| ==> s.ended[i].key.caller < s.nextRef)
    && (forall i :: 0 <= i < |s.ended| && s.ended[i].key.caller in s.actors ==>
          var a := s.actors[s.ended[i].key.caller];
          s.ended[i].key.id < a.nextId && a.calling != Some(s.ended[i].key.id))
    && (forall i :: 0 <= i < |s.ended| && s.ended[i].response.Some? ==>
         Replied(s, s.ended[i].key, s.ended[i].response.value))
    && (forall a :: a in s.actors && s.actors[a].calling.Some? ==> s.actors[a].calling.value < s.actors[a].nextId)
  }

  ghost predicate Inv(h: HandlersOf, s: System) {
    ServedInv(h, s) && MadeInv(s) && HandledInv(h, s) && MailboxesInv(s) && EndedInv(s)
  }

  // ----- moving messages

  // No request for this call is in the mailbox.
  ghost predicate NotAsked(mailbox: seq<Message>, key: Key) {
    forall k :: 0 <= k < |mailbox| && mailbox[k].Call? ==> Key(mailbox[k].caller, mailbox[k].id) != key
  }

  lemma GenuineStays(s: System, s': System, a: Ref, m: Message)
    requires Genuine(s, a, m) && s.made <= s'.made && s'.handled == s.handled
    ensures Genuine(s', a, m)
  {
  }

  ghost predicate SameButMailboxes(s: System, s': System) {
    && s'.(actors := s.actors) == s && s'.actors.Keys == s.actors.Keys
    && forall a :: a in s.actors ==> s'.actors[a].(mailbox := s.actors[a].mailbox) == s.actors[a]
  }

  lemma OnlyMailboxesMatter(h: HandlersOf, s: System, s': System)
    requires Inv(h, s) && SameButMailboxes(s, s')
    ensures ServedInv(h, s') && HandledInv(h, s')
    ensures MadeInv(s') && EndedInv(s')
  {
    assert ServedInv(h, s') && HandledInv(h, s');
    OtherMailboxesMade(s, s');
    OtherMailboxesEnded(s, s');
  }

  lemma OtherMailboxesMade(s: System, s': System)
    requires MadeInv(s) && SameButMailboxes(s, s')
    ensures MadeInv(s')
  {
  }

  lemma OtherMailboxesEnded(s: System, s': System)
    requires EndedInv(s) && SameButMailboxes(s, s')
    ensures EndedInv(s')
  {
  }

  // What is genuine stays so as long as calls and replies are as they were.
  lemma SameMailboxInv(s: System, s': System, a: Ref, mailbox: seq<Message>)
    requires MailboxInv(s, a, mailbox) && s'.made == s.made && s'.handled == s.handled
    ensures MailboxInv(s', a, mailbox)
  {
    forall k | 0 <= k < |mailbox| ensures Genuine(s', a, mailbox[k]) { GenuineStays(s, s', a, mailbox[k]); }
  }

  lemma DeliverKeepsInv(h: HandlersOf, s: System, to_: Ref, m: Message)
    requires Inv(h, s) && (to_ in s.actors ==> Genuine(s, to_, m))
    requires m.Call? && to_ in s.actors ==> NotAsked(s.actors[to_].mailbox, Key(m.caller, m.id))
    ensures Inv(h, Deliver(s, to_, m))
  {
    OnlyMailboxesMatter(h, s, Deliver(s, to_, m));
    DeliverMailboxes(s, to_, m);
  }

  lemma DeliverMailboxes(s: System, to_: Ref, m: Message)
    requires MailboxesInv(s) && (to_ in s.actors ==> Genuine(s, to_, m))
    requires m.Call? && to_ in s.actors ==> NotAsked(s.actors[to_].mailbox, Key(m.caller, m.id))
    ensures MailboxesInv(Deliver(s, to_, m))
  {
    var s' := Deliver(s, to_, m);
    forall a | a in s'.actors
      ensures MailboxInv(s', a, s'.actors[a].mailbox)
    {
      if a == to_ {
        GenuineStays(s, s', a, m);
      }
      SameMailboxInv(s, s', a, s.actors[a].mailbox);
    }
  }

  lemma RemoveKeepsInv(h: HandlersOf, s: System, a: Ref, k: nat)
    requires Inv(h, s) && a in s.actors && k < |s.actors[a].mailbox|
    ensures Inv(h, Remove(s, a, k))
  {
    OnlyMailboxesMatter(h, s, Remove(s, a, k));
    RemoveMailboxes(s, a, k);
  }

  lemma RemoveMailboxes(s: System, a: Ref, k: nat)
    requires MailboxesInv(s) && a in s.actors && k < |s.actors[a].mailbox|
    ensures MailboxesInv(Remove(s, a, k))
  {
    var s' := Remove(s, a, k);
    forall b | b in s'.actors
      ensures MailboxInv(s', b, s'.actors[b].mailbox)
    {
      SameMailboxInv(s, s', b, s.actors[b].mailbox);
    }
  }

  // ----- each step

  lemma OneMaking(s: System, a: Made, b: Made)
    requires MadeInv(s) && a in s.made && b in s.made && a.key == b.key
    ensures a == b
  {
  }

  lemma NewKey(h: HandlersOf, s: System, c: Ref)
    requires Inv(h, s) && c in s.actors
    ensures !WasHandled(s, Key(c, s.actors[c].nextId))
    ensures forall m :: m in s.made ==> m.key != Key(c, s.actors[c].nextId)
  {
  }

  lemma BegunMailboxes(s: System, begun: System)
    requires MailboxesInv(s) && begun.actors.Keys == s.actors.Keys
    requires s.made <= begun.made && begun.handled == s.handled
    requires forall a :: a in s.actors ==> begun.actors[a].mailbox == s.actors[a].mailbox
    ensures MailboxesInv(begun)
  {
  }

  // No request is queued for a call that has not been made.
  lemma NotYetAsked(h: HandlersOf, s: System, target: Ref, key: Key)
    requires Inv(h, s) && target in s.actors && forall m :: m in s.made ==> m.key != key
    ensures NotAsked(s.actors[target].mailbox, key)
  {
  }

  lemma BegunKeepsInv(h: HandlersOf, s: System, c: Ref, target: Ref, request: Request)
    requires Inv(h, s) && Enabled(s, BeginCall(c, target, request))
    ensures Inv(h, Begun(s, c, target, request))
  {
    NewKey(h, s, c);
    BegunMailboxes(s, Begun(s, c, target, request));
    BegunMade(s, c, target, request);
    BegunEnded(s, c, target, request);
  }

  lemma BegunMade(s: System, c: Ref, target: Ref, request: Request)
    requires MadeInv(s) && c in s.actors && forall m :: m in s.made ==> m.key != Key(c, s.actors[c].nextId)
    ensures MadeInv(Begun(s, c, target, request))
  {
    assert forall i :: 0 <= i < |s.made| ==> s.made[i] in s.made;
  }

  lemma BegunEnded(s: System, c: Ref, target: Ref, request: Request)
    requires EndedInv(s) && c in s.actors
    ensures EndedInv(Begun(s, c, target, request))
  {
  }

  lemma BeginKeepsInv(h: HandlersOf, s: System, c: Ref, target: Ref, request: Request)
    requires Inv(h, s) && Enabled(s, BeginCall(c, target, request))
    ensures Inv(h, Step(h, s, BeginCall(c, target, request)))
  {
    var id, begun := s.actors[c].nextId, Begun(s, c, target, request);
    BegunKeepsInv(h, s, c, target, request);
    assert Genuine(begun, target, Call(c, id, request)) by {
      NewKey(h, s, c);
      assert begun.made[|s.made|] == Made(Key(c, id), target, request);
    }
    if target in s.actors {
      NewKey(h, s, c);
      NotYetAsked(h, s, target, Key(c, id));
      assert begun.actors[target].mailbox == s.actors[target].mailbox;
    }
    DeliverKeepsInv(h, begun, target, Call(c, id, request));
  }

  lemma EndKeepsInv(h: HandlersOf, s: System, a: Ref, response: Option<Response>)
    requires Inv(h, s) && a in s.actors && s.actors[a].calling.Some?
    requires response.Some? ==> Replied(s, Key(a, s.actors[a].calling.value), response.value)
    ensures Inv(h, End(s, a, response))
  {
    var s' := End(s, a, response);
    forall b | b in s'.actors
      ensures MailboxInv(s', b, s'.actors[b].mailbox)
    {
      SameMailboxInv(s, s', b, s.actors[b].mailbox);
    }
    EndKeepsEnded(s, a, response);
  }

  lemma EndKeepsEnded(s: System, a: Ref, response: Option<Response>)
    requires EndedInv(s) && a in s.actors && s.actors[a].calling.Some? && a < s.nextRef
    requires response.Some? ==> Replied(s, Key(a, s.actors[a].calling.value), response.value)
    ensures EndedInv(End(s, a, response))
  {
  }

  lemma TakeReplyKeepsInv(h: HandlersOf, s: System, c: Ref, k: nat)
    requires Inv(h, s) && Enabled(s, TakeReply(c, k))
    ensures Inv(h, Step(h, s, TakeReply(c, k)))
  {
    var reply := s.actors[c].mailbox[k];
    assert MailboxInv(s, c, s.actors[c].mailbox);
    assert Genuine(s, c, reply);
    RemoveKeepsInv(h, s, c, k);
    if s.actors[c].calling == Some(reply.id) {
      var taken := Remove(s, c, k);
      assert Replied(taken, Key(c, reply.id), reply.response);
      EndKeepsInv(h, taken, c, Some(reply.response));
    }
  }

  // With the request at the head of a mailbox gone, no mailbox holds a request for that call.
  lemma OnlyAsked(h: HandlersOf, s: System, c: Ref, a: Ref)
    requires Inv(h, s) && c in s.actors && s.actors[c].mailbox != [] && s.actors[c].mailbox[0].Call? && a in s.actors
    ensures NotAsked(Remove(s, c, 0).actors[a].mailbox, Key(s.actors[c].mailbox[0].caller, s.actors[c].mailbox[0].id))
  {
    var m, from := s.actors[c].mailbox[0], if a == c then 1 else 0;
    var mailbox := Remove(s, c, 0).actors[a].mailbox;
    assert Genuine(s, c, m);
    forall k | 0 <= k < |mailbox| && mailbox[k].Call?
      ensures Key(mailbox[k].caller, mailbox[k].id) != Key(m.caller, m.id)
    {
      assert mailbox[k] == s.actors[a].mailbox[k + from];
      assert Genuine(s, a, s.actors[a].mailbox[k + from]);
    }
  }

  // A call that server `c` may dispatch: made to it, not handled so far, and asked nowhere else.
  ghost predicate Fresh(s: System, c: Ref, m: Message)
    requires m.Call?
  {
    var key := Key(m.caller, m.id);
    Made(key, c, m.request) in s.made && !WasHandled(s, key) && forall a :: a in s.actors ==> NotAsked(s.actors[a].mailbox, key)
  }

  lemma AnsweredStays(handled: seq<Handled>, more: seq<Handled>, a: Ref, dispatched: seq<Message>)
    requires AllAnswered(handled, a, dispatched)
    ensures AllAnswered(handled + more, a, dispatched)
  {
    forall k | 0 <= k < |dispatched| && dispatched[k].Call?
      ensures Answered(handled + more, a, k, dispatched[k])
    {
      assert Answered(handled, a, k, dispatched[k]);
      var i :| 0 <= i < |handled| && handled[i].key == Key(dispatched[k].caller, dispatched[k].id)
            && handled[i].server == a && handled[i].at == k;
      assert (handled + more)[i] == handled[i];
    }
  }

  lemma AnswersStay(h: HandlersOf, histories: map<Ref, History>, c: Ref, m: Message, r: Handled)
    requires c in histories && Answers(h, histories, r)
    ensures Answers(h, histories[c := histories[c].(dispatched := histories[c].dispatched + [m])], r)
  {
    var dispatched := histories[r.server].dispatched;
    assert (dispatched + [m])[..r.at] == dispatched[..r.at];
  }

  lemma AnswerAnswers(h: HandlersOf, s: System, c: Ref, m: Message)
    requires ServedInv(h, s) && c in s.actors && m.Call?
    ensures Answers(h, Dispatched(h, s, c, m).histories, AnswerTo(h, s, c, m))
  {
    var dispatched := s.histories[c].dispatched;
    assert (dispatched + [m])[..|dispatched|] == dispatched;
  }

  lemma DispatchedServed(h: HandlersOf, s: System, c: Ref, m: Message)
    requires ServedInv(h, s) && c in s.actors
    ensures ServedInv(h, Dispatched(h, s, c, m))
  {
    FoldSnoc(h(c), s.histories[c].initial, s.histories[c].dispatched, m);
  }

  lemma DispatchedHandled(h: HandlersOf, s: System, c: Ref, m: Message)
    requires ServedInv(h, s) && HandledInv(h, s) && c in s.actors && (m.Call? ==> Fresh(s, c, m))
    ensures HandledInv(h, Dispatched(h, s, c, m))
  {
    var s' := Dispatched(h, s, c, m);
    var more := if m.Call? then [AnswerTo(h, s, c, m)] else [];
    forall r | r in s'.handled
      ensures Answers(h, s'.histories, r)
    {
      if r in s.handled { AnswersStay(h, s.histories, c, m, r); } else { AnswerAnswers(h, s, c, m); }
    }
    forall a | a in s'.histories
      ensures AllAnswered(s'.handled, a, s'.histories[a].dispatched)
    {
      AnsweredStays(s.handled, more, a, s.histories[a].dispatched);
      if m.Call? && a == c { assert s'.handled[|s.handled|] == AnswerTo(h, s, c, m); }
    }
    if m.Call? {
      assert forall i :: 0 <= i < |s.handled| ==> s.handled[i].key != Key(m.caller, m.id);
    }
  }

  lemma HandledOneMore(s: System, served: System, handled: Handled, key: Key)
    requires served.handled == s.handled + [handled]
    ensures WasHandled(served, key) <==> WasHandled(s, key) || key == handled.key
  {
    if i: nat :| i < |s.handled| && s.handled[i].key == key { assert served.handled[i].key == key; }
    assert served.handled[|s.handled|] == handled;
  }

  lemma RepliedStays(s: System, s': System, key: Key, response: Response)
    requires s.handled <= s'.handled && Replied(s, key, response)
    ensures Replied(s', key, response)
  {
  }

  lemma DispatchedMailboxes(h: HandlersOf, s: System, c: Ref, m: Message)
    requires Shaped(s) && MailboxesInv(s) && c in s.actors && (m.Call? ==> Fresh(s, c, m))
    ensures MailboxesInv(Dispatched(h, s, c, m))
  {
    var s' := Dispatched(h, s, c, m);
    forall a | a in s'.actors
      ensures MailboxInv(s', a, s'.actors[a].mailbox)
    {
      var mailbox := s.actors[a].mailbox;
      assert MailboxInv(s, a, mailbox) && s'.actors[a].mailbox == mailbox;
      forall k | 0 <= k < |mailbox|
        ensures Genuine(s', a, mailbox[k])
      {
        assert Genuine(s, a, mailbox[k]);
        if mailbox[k].Reply? {
          RepliedStays(s, s', Key(a, mailbox[k].id), mailbox[k].response);
        } else if mailbox[k].Call? && m.Call? {
          HandledOneMore(s, s', AnswerTo(h, s, c, m), Key(mailbox[k].caller, mailbox[k].id));
        }
      }
    }
  }

  lemma DispatchedMade(h: HandlersOf, s: System, c: Ref, m: Message)
    requires Shaped(s) && MadeInv(s) && c in s.actors
    ensures MadeInv(Dispatched(h, s, c, m))
  {
  }

  lemma DispatchedEnded(h: HandlersOf, s: System, c: Ref, m: Message)
    requires Shaped(s) && EndedInv(s) && c in s.actors
    ensures EndedInv(Dispatched(h, s, c, m))
  {
    var s' := Dispatched(h, s, c, m);
    forall i | 0 <= i < |s'.ended| && s'.ended[i].response.Some?
      ensures Replied(s', s'.ended[i].key, s'.ended[i].response.value)
    {
      RepliedStays(s, s', s'.ended[i].key, s'.ended[i].response.value);
    }
  }

  lemma DispatchedKeepsInv(h: HandlersOf, s: System, c: Ref, m: Message)
    requires Inv(h, s) && c in s.actors && (m.Call? ==> Fresh(s, c, m))
    ensures Inv(h, Dispatched(h, s, c, m))
  {
    DispatchedServed(h, s, c, m);
    DispatchedHandled(h, s, c, m);
    DispatchedMailboxes(h, s, c, m);
    DispatchedMade(h, s, c, m);
    DispatchedEnded(h, s, c, m);
  }

  lemma ServeKeepsInv(h: HandlersOf, s: System, c: Ref)
    requires Inv(h, s) && Enabled(s, Serve(c))
    ensures Inv(h, Step(h, s, Serve(c)))
  {
    var m, taken := s.actors[c].mailbox[0], Remove(s, c, 0);
    var served := Dispatched(h, taken, c, m);
    assert MailboxInv(s, c, s.actors[c].mailbox);
    assert Genuine(s, c, m);
    RemoveKeepsInv(h, s, c, 0);
    if m.Call? {
      forall a | a in taken.actors
        ensures NotAsked(taken.actors[a].mailbox, Key(m.caller, m.id))
      {
        OnlyAsked(h, s, c, a);
      }
    }
    DispatchedKeepsInv(h, taken, c, m);
    if m.Call? {
      var answer := AnswerTo(h, taken, c, m);
      assert served.handled[|s.handled|] == answer;
      assert Replied(served, answer.key, answer.response);
      DeliverKeepsInv(h, served, m.caller, Reply(m.id, answer.response));
    }
  }

  lemma SpawnKeepsInv(h: HandlersOf, s: System, state: State)
    requires Inv(h, s)
    ensures Inv(h, Step(h, s, Spawn(state)))
  {
    var s' := Step(h, s, Spawn(state));
    SpawnMade(s, s');
    SpawnEnded(s, s');
    SpawnHandled(h, s, s');
    SpawnMailboxes(s, s');
  }

  lemma SpawnHandled(h: HandlersOf, s: System, s': System)
    requires HandledInv(h, s) && OneMore(s, s') && s.nextRef !in s.histories
    requires exists initial :: s'.histories == s.histories[s.nextRef := History(initial, [])]
    ensures HandledInv(h, s')
  {
    forall r | r in s'.handled
      ensures Answers(h, s'.histories, r)
    {
      assert Answers(h, s.histories, r);
    }
  }

  lemma SpawnMailboxes(s: System, s': System)
    requires MailboxesInv(s) && OneMore(s, s') && s'.actors[s.nextRef].mailbox == []
    ensures MailboxesInv(s')
  {
    forall a | a in s'.actors
      ensures MailboxInv(s', a, s'.actors[a].mailbox)
    {
      if a != s.nextRef { SameMailboxInv(s, s', a, s.actors[a].mailbox); }
    }
  }

  ghost predicate OneMore(s: System, s': System) {
    && s'.nextRef == s.nextRef + 1 && s'.made == s.made && s'.handled == s.handled && s'.ended == s.ended
    && s.nextRef in s'.actors && s'.actors[s.nextRef].calling.None?
    && forall a :: a in s'.actors && a != s.nextRef ==> a in s.actors && s'.actors[a] == s.actors[a]
  }

  lemma SpawnMade(s: System, s': System)
    requires MadeInv(s) && OneMore(s, s')
    ensures MadeInv(s')
  {
  }

  lemma SpawnEnded(s: System, s': System)
    requires EndedInv(s) && OneMore(s, s')
    ensures EndedInv(s')
  {
  }

  lemma LeaveKeepsInv(h: HandlersOf, s: System, c: Ref)
    requires Inv(h, s) && c in s.actors
    ensures Inv(h, Step(h, s, Leave(c)))
  {
  }

  lemma StepKeepsInv(h: HandlersOf, s: System, a: Action)
    requires Inv(h, s) && Enabled(s, a)
    ensures Inv(h, Step(h, s, a))
  {
    match a
    case BeginCall(c, target, request) => BeginKeepsInv(h, s, c, target, request);
    case TakeReply(c, k) => TakeReplyKeepsInv(h, s, c, k);
    case TimeOut(c) => EndKeepsInv(h, s, c, None);
    case Serve(c) => ServeKeepsInv(h, s, c);
    case Discard(c, k) => RemoveKeepsInv(h, s, c, k);
    case Post(target, m) => DeliverKeepsInv(h, s, target, m);
    case Spawn(state) => SpawnKeepsInv(h, s, state);
    case Leave(c) => LeaveKeepsInv(h, s, c);
  }

  // ----- whole runs

  ghost predicate Initial(s: System) {
    s.actors == map[] && s.histories == map[] && s.made == [] && s.handled == [] && s.ended == []
  }

  ghost predicate IsRun(h: HandlersOf, states: seq<System>, actions: seq<Action>) {
    && |states| == |actions| + 1 && Initial(states[0])
    && forall i :: 0 <= i < |actions| ==>
         Shaped(states[i]) && Enabled(states[i], actions[i]) && states[i + 1] == Step(h, states[i], actions[i])
  }

  lemma {:induction false} RunKeepsInv(h: HandlersOf, states: seq<System>, actions: seq<Action>, i: nat)
    requires IsRun(h, states, actions) && i <= |actions|
    ensures Inv(h, states[i])
  {
    if i > 0 {
      RunKeepsInv(h, states, actions, i - 1);
      var s, a, s' := states[i - 1], actions[i - 1], states[i - 1 + 1];
      assert Enabled(s, a) && s' == Step(h, s, a);
      StepKeepsInv(h, s, a);
    }
  }

  // A call that returned: it was made, once; the server it was made to has dispatched that very
  // request, once; and the value is the response of its handler in the state that everything the
  // server had dispatched before has led to, by running its handlers. The call has not ended any
  // other time.
  lemma ReturnsItsOwnResponse(h: HandlersOf, states: seq<System>, actions: seq<Action>, i: nat, e: nat)
    returns (made: Made, at: nat, st: seq<State>)
    requires IsRun(h, states, actions) && i <= |actions| && e < |states[i].ended| && states[i].ended[e].response.Some?
    ensures var s := states[i];
            && made in s.made && made.key == s.ended[e].key
            && (forall m :: m in s.made && m.key == made.key ==> m == made)
            && made.target in s.histories
            && var History(initial, dispatched) := s.histories[made.target];
            && at < |dispatched|
            && (forall k :: 0 <= k < |dispatched| ==> (IsRequestOf(dispatched[k], made) <==> k == at))
            && HandledBy(h(made.target), initial, dispatched, st)
            && s.ended[e].response.value == h(made.target).call(st[at], made.request).1
            && forall j :: 0 <= j < |s.ended| && j != e ==> s.ended[j].key != made.key
  {
    RunKeepsInv(h, states, actions, i);
    var s := states[i];
    var handled: nat :| handled < |s.handled| && s.handled[handled].key == s.ended[e].key &&
         s.handled[handled].response == s.ended[e].response.value;
    var r := s.handled[handled];
    assert r in s.handled && Answers(h, s.histories, r);
    made, at := Made(r.key, r.server, r.request), r.at;
    forall m | m in s.made && m.key == made.key
      ensures m == made
    {
      OneMaking(s, m, made);
    }
    DispatchedOnce(h, s, handled);
    st := StatesOf(h, s.histories[r.server], r.server, at);
  }

  // The states a server has gone through.
  lemma StatesOf(h: HandlersOf, history: History, server: Ref, at: nat) returns (st: seq<State>)
    requires at <= |history.dispatched|
    ensures HandledBy(h(server), history.initial, history.dispatched, st)
    ensures st[at] == Fold(h(server), history.initial, history.dispatched[..at]).state
  {
    var sent;
    st, sent := FoldIsHandled(h(server), history.initial, history.dispatched);
    FoldAt(h(server), history.initial, history.dispatched, st, at);
  }

  predicate IsRequestOf(m: Message, made: Made) {
    m.Call? && Key(m.caller, m.id) == made.key
  }

  lemma DispatchedOnce(h: HandlersOf, s: System, i: nat)
    requires HandledInv(h, s) && i < |s.handled| && s.handled[i].server in s.histories
    ensures var r, dispatched := s.handled[i], s.histories[s.handled[i].server].dispatched;
            forall k :: 0 <= k < |dispatched| ==> (IsRequestOf(dispatched[k], Made(r.key, r.server, r.request)) <==> k == r.at)
  {
    var r, dispatched := s.handled[i], s.histories[s.handled[i].server].dispatched;
    assert r in s.handled && Answers(h, s.histories, r);
    forall k | 0 <= k < |dispatched| && IsRequestOf(dispatched[k], Made(r.key, r.server, r.request))
      ensures k == r.at
    {
      assert AllAnswered(s.handled, r.server, dispatched);
      assert Answered(s.handled, r.server, k, dispatched[k]);
      var j: nat :| j < |s.handled| && s.handled[j].key == r.key && s.handled[j].server == r.server && s.handled[j].at == k;
      assert j == i;
    }
  }

  lemma {:induction false} EndedGrows(h: HandlersOf, states: seq<System>, actions: seq<Action>, i: nat, j: nat)
    requires IsRun(h, states, actions) && i <= j <= |actions|
    ensures states[i].ended <= states[j].ended
    decreases j
  {
    if i < j {
      EndedGrows(h, states, actions, i, j - 1);
      var s, a, s' := states[j - 1], actions[j - 1], states[j - 1 + 1];
      assert Enabled(s, a) && s' == Step(h, s, a);
    }
  }

  // A call that times out has ended without a response, and never returns one later, whatever
  // replies arrive.
  lemma TimedOutForGood(h: HandlersOf, states: seq<System>, actions: seq<Action>, i: nat, j: nat, c: Ref)
    requires IsRun(h, states, actions) && i < j <= |actions|
    requires actions[i] == TimeOut(c) && c in states[i].actors && states[i].actors[c].calling.Some?
    ensures c in states[i + 1].actors && states[i + 1].actors[c].calling.None?
    ensures var key := Key(c, states[i].actors[c].calling.value);
            && Ended(key, None) in states[j].ended
            && forall e :: 0 <= e < |states[j].ended| && states[j].ended[e].key == key ==> states[j].ended[e].response.None?
  {
    var ended := Ended(Key(c, states[i].actors[c].calling.value), None);
    assert Enabled(states[i], actions[i]) && states[i + 1] == Step(h, states[i], actions[i]);
    assert states[i + 1].ended[|states[i].ended|] == ended;
    EndedGrows(h, states, actions, i + 1, j);
    RunKeepsInv(h, states, actions, j);
  }

  // A reply to a call that is over satisfies no other: taken by a later call, it is dropped, and
  // that call keeps waiting.
  lemma LateReplyIsDropped(h: HandlersOf, s: System, c: Ref, k: nat, e: nat)
    requires Inv(h, s) && Enabled(s, TakeReply(c, k)) && e < |s.ended|
    requires s.ended[e].key == Key(c, s.actors[c].mailbox[k].id)
    ensures Step(h, s, TakeReply(c, k)) == Remove(s, c, k)
    ensures Step(h, s, TakeReply(c, k)).ended == s.ended &&
              Step(h, s, TakeReply(c, k)).actors[c].calling == s.actors[c].calling
  {
  }

  // At most one reply is ever sent for a call.
  lemma OneReplyPerCall(h: HandlersOf, states: seq<System>, actions: seq<Action>, i: nat, j: nat, k: nat)
    requires IsRun(h, states, actions) && i <= |actions| && j < k < |states[i].handled|
    ensures states[i].handled[j].key != states[i].handled[k].key
  {
    RunKeepsInv(h, states, actions, i);
  }

  // ----- a call that is served returns

  // The caller and the server are idle, and nothing is queued at either.
  ghost predicate Idle(s: System, c: Ref) {
    c in s.actors && s.actors[c].calling.None? && s.actors[c].mailbox == []
  }

  // From a state in which nothing is queued at either, a call is made, served and answered, and
  // returns the response of the handler.
  lemma CallReturns(h: HandlersOf, s: System, c: Ref, target: Ref, request: Request) returns (states: seq<System>)
    requires Inv(h, s) && Idle(s, c) && Idle(s, target) && c != target
    ensures |states| == 4 && states[0] == s
    ensures Enabled(s, BeginCall(c, target, request)) && states[1] == Step(h, s, BeginCall(c, target, request))
    ensures Shaped(states[1]) && Enabled(states[1], Serve(target)) && states[2] == Step(h, states[1], Serve(target))
    ensures Shaped(states[2]) && Enabled(states[2], TakeReply(c, 0)) && states[3] == Step(h, states[2], TakeReply(c, 0))
    ensures states[3].ended == s.ended + [Ended(Key(c, s.actors[c].nextId),
                                                Some(h(target).call(s.actors[target].served.state, request).1))]
  {
    var begun := Step(h, s, BeginCall(c, target, request));
    assert begun.actors[target].mailbox == [Call(c, s.actors[c].nextId, request)];
    var served := Step(h, begun, Serve(target));
    assert served.actors[c].mailbox == [Reply(s.actors[c].nextId, h(target).call(s.actors[target].served.state, request).1)];
    states := [s, begun, served, Step(h, served, TakeReply(c, 0))];
  }
}

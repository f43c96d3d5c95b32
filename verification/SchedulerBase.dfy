/**
  The scheduler's registry object: its methods, which update its maps in place, against the functions
  of `Topologies` on its state.
*/
module SchedulerBases {
  import opened ActorControl
  import opened Topologies

  class SchedulerBase {
    var actors: set<Ref>
    var links: map<Ref, seq<Ref>>
    var monitors: map<Ref, seq<Ref>>
    var nextRef: Ref
    var activeCount: int
    var delivered: seq<Signal>
    ghost var sent: seq<Signal>

    ghost function View(): Net
      reads this
    {
      Net(actors, links, monitors, nextRef, activeCount, sent, delivered)
    }

    ghost predicate Valid()
      reads this
    {
      Inv(View())
    }

    constructor ()
      ensures Valid() && Initial(View())
    {
      actors, links, monitors, nextRef, activeCount, delivered, sent := {}, map[], map[], 1, 0, [], [];
      new;
      assert Symmetric(View());
    }

    function ActiveActorCount(): (n: int)
      requires Valid()
      reads this
      ensures n == |actors|
    {
      activeCount
    }

    method Link(left: Ref, right: Ref) returns (threw: bool)
      requires Valid()
      modifies this`links
      ensures Valid() && threw == !BothRegistered(old(View()), left, right)
      ensures View() == if threw then old(View()) else Topologies.Link(old(View()), left, right)
    {
      if left !in actors || right !in actors {
        return true;
      }
      LinkKeepsSymmetry(View(), left, right);
      links := links[left := At(links, left) + [right]];
      links := links[right := At(links, right) + [left]];
      threw := false;
    }

    method Monitor(watcher: Ref, target: Ref) returns (threw: bool)
      requires Valid()
      modifies this`monitors
      ensures Valid() && threw == !BothRegistered(old(View()), watcher, target)
      ensures View() == if threw then old(View()) else Topologies.Monitor(old(View()), watcher, target)
    {
      if watcher !in actors || target !in actors {
        return true;
      }
      StepKeepsInv(View(), Monitors(watcher, target));
      monitors := monitors[target := At(monitors, target) + [watcher]];
      threw := false;
    }

    method SpawnImpl(linker: Ref, watcher: Ref) returns (ref: Ref)
      requires Valid() && linker < nextRef && watcher < nextRef
      modifies this
      ensures Valid() && View() == Spawn(old(View()), linker, watcher) && ref == old(nextRef)
    {
      StepKeepsInv(View(), Spawns(linker, watcher));
      ref := nextRef;
      nextRef := nextRef + 1;
      actors := actors + {ref};
      if linker != 0 {
        links := links[linker := At(links, linker) + [ref]];
        links := links[ref := At(links, ref) + [linker]];
      }
      if watcher != 0 {
        monitors := monitors[ref := At(monitors, ref) + [watcher]];
      }
      activeCount := activeCount + 1;
    }

    static method EraseAll(refs: seq<Ref>, a: Ref) returns (kept: seq<Ref>)
      ensures kept == AllBut(refs, a)
    {
      kept := [];
      var i := 0;
      while i < |refs|
        invariant i <= |refs| && kept == AllBut(refs[..i], a)
      {
        assert refs[..i + 1][..i] == refs[..i];
        if refs[i] != a {
          kept := kept + [refs[i]];
        }
        i := i + 1;
      }
      assert refs[..i] == refs;
    }

    // A message to nobody is dropped.
    method Send(signal: Signal)
      modifies this`delivered, this`sent
      ensures sent == old(sent) + [signal]
      ensures delivered == old(delivered) + if signal.target in actors then [signal] else []
    {
      sent := sent + [signal];
      if signal.target in actors {
        delivered := delivered + [signal];
      }
    }

    method SendAll(signals: seq<Signal>)
      modifies this`delivered, this`sent
      ensures sent == old(sent) + signals && delivered == old(delivered) + Reaching(actors, signals)
    {
      var i := 0;
      while i < |signals|
        invariant i <= |signals|
        invariant sent == old(sent) + signals[..i] && delivered == old(delivered) + Reaching(actors, signals[..i])
      {
        assert signals[..i + 1][..i] == signals[..i];
        assert signals[..i + 1] == signals[..i] + [signals[i]];
        Send(signals[i]);
        i := i + 1;
      }
      assert signals[..i] == signals;
    }

    method SendCollected(exits: seq<Signal>, downs: seq<Signal>)
      modifies this`delivered, this`sent
      ensures sent == old(sent) + (exits + downs)
      ensures delivered == old(delivered) + Reaching(actors, exits + downs)
    {
      SendAll(exits);
      SendAll(downs);
      ReachingAppend(actors, exits, downs);
    }

    // Strikes `a` off the list of `linked`.
    method StrikeOff(linked: Ref, a: Ref)
      modifies this`links
      ensures linked in old(links) ==> links == old(links)[linked := AllBut(old(links)[linked], a)]
      ensures linked !in old(links) ==> links == old(links)
    {
      if linked in links {
        var kept := EraseAll(links[linked], a);
        links := links[linked := kept];
      }
    }

    // Strikes `a` off the lists of everyone on its own list, and collects the exit signals.
    method CollectExits(a: Ref, reason: Reason) returns (signals: seq<Signal>)
      requires a !in At(links, a)
      modifies this`links
      ensures links == Unlinked(old(links), a) && signals == Exits(At(old(links), a), a, reason)
    {
      signals := [];
      if a in links {
        var entry := links[a];
        var i := 0;
        while i < |entry|
          invariant i <= |entry| && signals == Exits(entry[..i], a, reason)
          invariant Struck(old(links), links, a, entry[..i])
        {
          var linked := entry[i];
          assert entry[..i + 1] == entry[..i] + [linked];
          ExitsSnoc(entry[..i], linked, a, reason);
          signals := signals + [ExitSignal(linked, a, reason)];
          StruckOne(old(links), links, a, entry[..i], linked);
          StrikeOff(linked, a);
          i := i + 1;
        }
        assert entry[..i] == entry;
        StruckAll(old(links), links, a);
        links := links - {a};
      }
    }

    method CollectDowns(a: Ref, reason: Reason) returns (signals: seq<Signal>)
      modifies this`monitors
      ensures monitors == old(monitors) - {a} && signals == Downs(At(old(monitors), a), a, reason)
    {
      signals := [];
      if a in monitors {
        var entry := monitors[a];
        var i := 0;
        while i < |entry|
          invariant i <= |entry| && signals == Downs(entry[..i], a, reason)
        {
          signals := signals + [DownSignal(entry[i], a, reason)];
          i := i + 1;
        }
        assert entry[..i] == entry;
      }
      monitors := monitors - {a};
    }

    method NotifyExit(a: Ref, reason: Reason)
      requires Valid() && Enabled(View(), ActorExits(a, reason))
      modifies this
      ensures Valid() && View() == Topologies.NotifyExit(old(View()), a, reason)
    {
      ghost var s := View();
      assert Inv(Topologies.NotifyExit(s, a, reason)) by {
        StepKeepsInv(s, ActorExits(a, reason));
      }
      var exits := CollectExits(a, reason);
      var downs := CollectDowns(a, reason);
      assert exits + downs == Signals(s, a, reason);
      actors := actors - {a};
      activeCount := activeCount - 1;
      SendCollected(exits, downs);
    }
  }

  lemma {:induction false} ReachingAppend(actors: set<Ref>, xs: seq<Signal>, ys: seq<Signal>)
    ensures Reaching(actors, xs + ys) == Reaching(actors, xs) + Reaching(actors, ys)
    decreases |ys|
  {
    if ys == [] {
      assert xs + ys == xs;
    } else {
      ReachingAppend(actors, xs, ys[..|ys| - 1]);
      assert (xs + ys)[..|xs + ys| - 1] == xs + ys[..|ys| - 1];
    }
  }

  lemma ExitsSnoc(refs: seq<Ref>, ref: Ref, from: Ref, reason: Reason)
    ensures Exits(refs + [ref], from, reason) == Exits(refs, from, reason) + [ExitSignal(ref, from, reason)]
  {
  }

  // `a` has been struck off the lists of those in `passed`.
  ghost predicate Struck(before: map<Ref, seq<Ref>>, now: map<Ref, seq<Ref>>, a: Ref, passed: seq<Ref>) {
    && now.Keys == before.Keys
    && forall x :: x in now ==> now[x] == if x in passed then AllBut(before[x], a) else before[x]
  }

  lemma StruckOne(before: map<Ref, seq<Ref>>, now: map<Ref, seq<Ref>>, a: Ref, passed: seq<Ref>, x: Ref)
    requires Struck(before, now, a, passed)
    ensures x in now ==> Struck(before, now[x := AllBut(now[x], a)], a, passed + [x])
    ensures x !in now ==> Struck(before, now, a, passed + [x])
  {
    if x in now {
      AllButTwice(before[x], a);
    }
  }

  lemma StruckAll(before: map<Ref, seq<Ref>>, now: map<Ref, seq<Ref>>, a: Ref)
    requires Struck(before, now, a, At(before, a))
    ensures now - {a} == Unlinked(before, a)
  {
  }

  lemma {:induction false} AllButTwice(refs: seq<Ref>, a: Ref)
    ensures AllBut(AllBut(refs, a), a) == AllBut(refs, a)
    decreases |refs|
  {
    if refs != [] {
      var front, last := refs[..|refs| - 1], refs[|refs| - 1];
      AllButTwice(front, a);
      if last != a {
        assert (AllBut(front, a) + [last])[..|AllBut(front, a)|] == AllBut(front, a);
      } else {
        assert AllBut(refs, a) == AllBut(front, a);
      }
    }
  }
}

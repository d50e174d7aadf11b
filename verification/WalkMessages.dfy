/**
 What is said during a walk is printed: the messages of the initialization, of
 errors, and of every callback, those of each thread in its own order.
 */
module WalkMessages {
  import opened Walk

  const PRODUCER := -1

  /** What is said about the errors that the walker comes across. */
  function SaidOfErrors(events: seq<Event>): seq<Message> {
    if events == [] then []
    else (if events[0].Failed? then events[0].messages else []) + SaidOfErrors(events[1..])
  }

  /** What the callbacks of worker `w` say in a run. */
  function SaidBy(w: nat, actions: seq<Action>): seq<Message> {
    if actions == [] then []
    else (if (actions[0].Take? || actions[0].Quit?) && actions[0].w == w then actions[0].said else [])
         + SaidBy(w, actions[1..])
  }

  /** What is said after the walk. */
  function SaidAtJoin(actions: seq<Action>): seq<Message> {
    if actions == [] then [] else (if actions[0].Join? then actions[0].said else []) + SaidAtJoin(actions[1..])
  }

  function Joins(actions: seq<Action>): nat {
    if actions == [] then 0 else (if actions[0].Join? then 1 else 0) + Joins(actions[1..])
  }

  /** A message and the thread that sent it. */
  datatype Tagged = Tagged(thread: int, message: Message)

  function Messages(tags: seq<Tagged>): seq<Message> {
    if tags == [] then [] else [tags[0].message] + Messages(tags[1..])
  }

  function OfThread(thread: int, tags: seq<Tagged>): seq<Message> {
    if tags == [] then []
    else (if tags[0].thread == thread then [tags[0].message] else []) + OfThread(thread, tags[1..])
  }

  predicate InRange(tags: seq<Tagged>, n: nat) { forall i :: 0 <= i < |tags| ==> PRODUCER <= tags[i].thread < n }

  // ----- One step

  function SentNow(s: State, a: Action): seq<Tagged>
    requires Enabled(s, a)
  {
    match a
    case Speak(w) => [Tagged(w, s.workers[w].todo[0])]
    case Report => [Tagged(PRODUCER, s.producer.todo[0])]
    case _ => []
  }

  function Unsent(w: Worker): seq<Message> { if w.Starting? || w.Busy? || w.Finalizing? then w.todo else [] }

  function Unreported(p: Producer): seq<Message> { if p.Walking? then p.todo + SaidOfErrors(p.events) else [] }

  function Untold(m: Main): seq<Message> { if m.Reporting? then m.todo else [] }

  function Joined(m: Main): nat { if m.Printing? || m.Joining? then 0 else 1 }

  lemma OneMessage(thread: int, t: Tagged)
    ensures OfThread(thread, [t]) == (if t.thread == thread then [t.message] else []) && Messages([t]) == [t.message]
  {
    assert [t][1..] == [];
  }

  lemma SentStep(s: State, a: Action)
    requires Enabled(s, a)
    ensures var t := Next(s, a); t.sent == s.sent + Messages(SentNow(s, a)) && |t.workers| == |s.workers|
    ensures InRange(SentNow(s, a), |s.workers|)
  {
    if a.Speak? || a.Report? {
      OneMessage(0, SentNow(s, a)[0]);
    } else {
      assert s.sent + [] == s.sent;
    }
  }

  lemma OwnStep(s: State, a: Action, w: nat)
    requires OfWorker(a) && EnabledWorker(s, a) && a.w == w
    ensures
      var t := NextWorker(s, a);
      && w < |t.workers|
      && (if a.Speak? then Unsent(s.workers[w]) == [s.workers[w].todo[0]] + Unsent(t.workers[w])
          else Unsent(t.workers[w]) == Unsent(s.workers[w]) + if a.Take? || a.Quit? then a.said else [])
  {}

  lemma OthersStay(s: State, a: Action, w: nat)
    requires Enabled(s, a) && w < |s.workers| && !(OfWorker(a) && a.w == w)
    ensures w < |Next(s, a).workers| && Next(s, a).workers[w] == s.workers[w]
  {}

  lemma SaidInOne(w: nat, a: Action)
    ensures SaidBy(w, [a]) == if (a.Take? || a.Quit?) && a.w == w then a.said else []
  {
    assert [a][1..] == [];
  }

  lemma SentInOne(s: State, a: Action, thread: int)
    requires Enabled(s, a)
    ensures OfThread(thread, SentNow(s, a)) ==
            if a.Speak? && a.w == thread then [s.workers[a.w].todo[0]]
            else if a.Report? && thread == PRODUCER then [s.producer.todo[0]] else []
  {
    if a.Speak? || a.Report? {
      OneMessage(thread, SentNow(s, a)[0]);
    }
  }

  lemma WorkerStep(s: State, a: Action, w: nat)
    requires Enabled(s, a) && w < |s.workers| == |Next(s, a).workers|
    ensures OfThread(w, SentNow(s, a)) + Unsent(Next(s, a).workers[w]) == Unsent(s.workers[w]) + SaidBy(w, [a])
  {
    SaidInOne(w, a);
    SentInOne(s, a, w);
    hide OfThread, SentNow, SaidBy, Unsent, NextWorker, EnabledWorker, EnabledMain, EnabledProducer, NextMain,
      NextProducer;
    if OfWorker(a) && a.w == w {
      OwnStep(s, a, w);
    } else {
      OthersStay(s, a, w);
    }
  }

  lemma ProducerStays(s: State, a: Action)
    requires Enabled(s, a) && !(a.Emit? || a.Report? || a.CloseWalk?)
    ensures Next(s, a).producer == s.producer
  {}

  lemma ProducerMoves(s: State, a: Action)
    requires (a.Emit? || a.Report? || a.CloseWalk?) && EnabledProducer(s, a)
    ensures (if a.Report? then [s.producer.todo[0]] else []) + Unreported(NextProducer(s, a).producer) ==
            Unreported(s.producer)
  {
    if a.Report? {
      var p := s.producer;
      assert p.todo == [p.todo[0]] + p.todo[1..];
      assert [p.todo[0]] + (p.todo[1..] + SaidOfErrors(p.events)) == p.todo + SaidOfErrors(p.events);
    }
  }

  lemma ProducerStep(s: State, a: Action)
    requires Enabled(s, a)
    ensures OfThread(PRODUCER, SentNow(s, a)) + Unreported(Next(s, a).producer) == Unreported(s.producer)
  {
    SentInOne(s, a, PRODUCER);
    hide OfThread, SentNow, Unreported, NextWorker, EnabledWorker, EnabledMain, EnabledProducer, NextMain, NextProducer;
    if a.Emit? || a.Report? || a.CloseWalk? {
      ProducerMoves(s, a);
    } else {
      ProducerStays(s, a);
    }
  }

  predicate OfMain(a: Action) { !OfWorker(a) && !a.Emit? && !a.Report? && !a.CloseWalk? }

  lemma MainStays(s: State, a: Action)
    requires Enabled(s, a) && !OfMain(a)
    ensures Next(s, a).main == s.main && Next(s, a).reported == s.reported
  {}

  lemma MainMoves(s: State, a: Action)
    requires OfMain(a) && EnabledMain(s, a)
    ensures
      var t := NextMain(s, a);
      && t.reported + Untold(t.main) == s.reported + Untold(s.main) + (if a.Join? then a.said else [])
      && Joined(t.main) == Joined(s.main) + if a.Join? then 1 else 0
  {
    if a.Tell? {
      assert s.main.todo == [s.main.todo[0]] + s.main.todo[1..];
    }
  }

  lemma JoinsInOne(a: Action)
    ensures SaidAtJoin([a]) == (if a.Join? then a.said else []) && Joins([a]) == if a.Join? then 1 else 0
  {
    assert [a][1..] == [];
  }

  lemma MainStep(s: State, a: Action)
    requires Enabled(s, a)
    ensures
      var t := Next(s, a);
      && t.reported + Untold(t.main) == s.reported + Untold(s.main) + SaidAtJoin([a])
      && Joined(t.main) == Joined(s.main) + Joins([a])
  {
    JoinsInOne(a);
    hide Untold, Joined, SaidAtJoin, Joins, NextWorker, EnabledWorker, EnabledMain, EnabledProducer, NextMain,
      NextProducer;
    if OfMain(a) {
      MainMoves(s, a);
    } else {
      MainStays(s, a);
      var before := s.reported + Untold(s.main);
      assert before + [] == before;
    }
  }

  // ----- Whole runs

  /** All that is sent in a run. */
  ghost function SentIn(s: State, actions: seq<Action>, t: State): seq<Tagged>
    requires Leads(s, actions, t)
    decreases |actions|
  {
    if actions == [] then [] else SentNow(s, actions[0]) + SentIn(Next(s, actions[0]), actions[1..], t)
  }

  lemma {:induction false} MessagesConcat(a: seq<Tagged>, b: seq<Tagged>)
    ensures Messages(a + b) == Messages(a) + Messages(b)
  {
    if a == [] {
      assert a + b == b;
    } else {
      assert (a + b)[0] == a[0] && (a + b)[1..] == a[1..] + b;
      MessagesConcat(a[1..], b);
    }
  }

  lemma {:induction false} OfThreadConcat(thread: int, a: seq<Tagged>, b: seq<Tagged>)
    ensures OfThread(thread, a + b) == OfThread(thread, a) + OfThread(thread, b)
  {
    if a == [] {
      assert a + b == b;
    } else {
      assert (a + b)[0] == a[0] && (a + b)[1..] == a[1..] + b;
      OfThreadConcat(thread, a[1..], b);
    }
  }

  lemma SaidByCons(w: nat, actions: seq<Action>)
    requires actions != []
    ensures SaidBy(w, actions) == SaidBy(w, [actions[0]]) + SaidBy(w, actions[1..])
    ensures SaidAtJoin(actions) == SaidAtJoin([actions[0]]) + SaidAtJoin(actions[1..])
    ensures Joins(actions) == Joins([actions[0]]) + Joins(actions[1..])
  {
    assert [actions[0]][1..] == [];
  }

  /** What is sent now and later, and what is left, is what was to be sent and what is said. */
  lemma Account(now: seq<Message>, later: seq<Message>, left: seq<Message>, next: seq<Message>, first: seq<Message>,
                saidNow: seq<Message>, saidLater: seq<Message>)
    requires now + next == first + saidNow && later + left == next + saidLater
    ensures now + later + left == first + (saidNow + saidLater)
  {
    assert now + later + left == now + (later + left);
    assert now + (next + saidLater) == now + next + saidLater;
    assert first + saidNow + saidLater == first + (saidNow + saidLater);
  }

  lemma NoMessages(sent: seq<Message>)
    ensures sent + Messages([]) == sent
  {}

  lemma {:induction false} RunSends(s: State, actions: seq<Action>, t: State)
    requires Leads(s, actions, t)
    ensures t.sent == s.sent + Messages(SentIn(s, actions, t)) && |t.workers| == |s.workers|
    ensures InRange(SentIn(s, actions, t), |s.workers|)
    decreases |actions|
  {
    hide Next, Enabled, SentNow, Messages;
    if actions == [] {
      NoMessages(s.sent);
    } else {
      var now, next := SentNow(s, actions[0]), Next(s, actions[0]);
      SentStep(s, actions[0]);
      RunSends(next, actions[1..], t);
      var later := SentIn(next, actions[1..], t);
      hide Leads, SentIn;
      MessagesConcat(now, later);
      assert s.sent + Messages(now) + Messages(later) == s.sent + (Messages(now) + Messages(later));
    }
  }

  lemma {:induction false} WorkerSends(s: State, actions: seq<Action>, t: State, w: nat)
    requires Leads(s, actions, t) && w < |s.workers| == |t.workers|
    ensures OfThread(w, SentIn(s, actions, t)) + Unsent(t.workers[w]) == Unsent(s.workers[w]) + SaidBy(w, actions)
    decreases |actions|
  {
    if actions == [] {
      assert [] + Unsent(s.workers[w]) == Unsent(s.workers[w]) + [];
    } else {
      var a, next, rest := actions[0], Next(s, actions[0]), actions[1..];
      SentStep(s, a);
      WorkerStep(s, a, w);
      hide Next, Enabled, SentNow, OfThread, Unsent, SaidBy;
      WorkerSends(next, rest, t, w);
      OfThreadConcat(w, SentNow(s, a), SentIn(next, rest, t));
      SaidByCons(w, actions);
      Account(OfThread(w, SentNow(s, a)), OfThread(w, SentIn(next, rest, t)), Unsent(t.workers[w]),
              Unsent(next.workers[w]), Unsent(s.workers[w]), SaidBy(w, [a]), SaidBy(w, rest));
    }
  }

  lemma {:induction false} ProducerSends(s: State, actions: seq<Action>, t: State)
    requires Leads(s, actions, t)
    ensures OfThread(PRODUCER, SentIn(s, actions, t)) + Unreported(t.producer) == Unreported(s.producer)
    decreases |actions|
  {
    if actions == [] {
      assert [] + Unreported(s.producer) == Unreported(s.producer);
    } else {
      var a, next, rest := actions[0], Next(s, actions[0]), actions[1..];
      ProducerStep(s, a);
      hide Next, Enabled, SentNow, OfThread, Unreported;
      ProducerSends(next, rest, t);
      OfThreadConcat(PRODUCER, SentNow(s, a), SentIn(next, rest, t));
      Account(OfThread(PRODUCER, SentNow(s, a)), OfThread(PRODUCER, SentIn(next, rest, t)), Unreported(t.producer),
              Unreported(next.producer), Unreported(s.producer), [], []);
    }
  }

  lemma {:induction false} MainTells(s: State, actions: seq<Action>, t: State)
    requires Leads(s, actions, t)
    ensures t.reported + Untold(t.main) == s.reported + Untold(s.main) + SaidAtJoin(actions)
    ensures Joined(t.main) == Joined(s.main) + Joins(actions)
    decreases |actions|
  {
    hide Next, Enabled, Untold, Joined;
    if actions == [] {
      assert s.reported + Untold(s.main) + [] == s.reported + Untold(s.main);
    } else {
      var a, next, rest := actions[0], Next(s, actions[0]), actions[1..];
      MainStep(s, a);
      hide SaidAtJoin, Joins;
      MainTells(next, rest, t);
      SaidByCons(0, actions);
      var first := s.reported + Untold(s.main);
      assert first + SaidAtJoin([a]) + SaidAtJoin(rest) == first + (SaidAtJoin([a]) + SaidAtJoin(rest));
    }
  }

  // ----- Finished walks

  /**
   `printed` is an interleaving of what the walker says about errors and of what
   each worker says, at its initialization and in its callbacks.
   */
  ghost predicate Interleaves(tags: seq<Tagged>, printed: seq<Message>, events: seq<Event>, init: seq<seq<Message>>,
                              actions: seq<Action>) {
    && Messages(tags) == printed && InRange(tags, |init|)
    && OfThread(PRODUCER, tags) == SaidOfErrors(events)
    && forall w :: 0 <= w < |init| ==> OfThread(w, tags) == init[w] + SaidBy(w, actions)
  }

  /** In a finished walk, what is printed is what the threads said, each in its own order. */
  lemma AllSaidIsPrinted(events: seq<Event>, init: seq<seq<Message>>, actions: seq<Action>, s: State)
    returns (tags: seq<Tagged>)
    requires Leads(Initial(events, init), actions, s) && s.main.Finished?
    ensures Interleaves(tags, s.printed, events, init, actions)
    ensures s.shown == SaidAtJoin(actions) && Joins(actions) == 1
  {
    var first := Initial(events, init);
    InitialIsKept(events, init);
    RunKeeps(first, actions, s, Paths(events));
    InitialSaysNothing(events, init);
    hide *;
    FinishedIsSilent(s, Paths(events));
    RunSends(first, actions, s);
    ProducerSends(first, actions, s);
    MainTells(first, actions, s);
    tags := SentIn(first, actions, s);
    assert [] + SaidAtJoin(actions) == SaidAtJoin(actions) && [] + Messages(tags) == Messages(tags);
    assert OfThread(PRODUCER, tags) + [] == OfThread(PRODUCER, tags);
    forall w | 0 <= w < |init| ensures OfThread(w, tags) == init[w] + SaidBy(w, actions) {
      WorkerSends(first, actions, s, w);
      assert OfThread(w, tags) + [] == OfThread(w, tags);
    }
    AreInterleaved(tags, s.printed, events, init, actions);
  }

  lemma AreInterleaved(tags: seq<Tagged>, printed: seq<Message>, events: seq<Event>, init: seq<seq<Message>>,
                       actions: seq<Action>)
    requires Messages(tags) == printed && InRange(tags, |init|)
    requires OfThread(PRODUCER, tags) == SaidOfErrors(events)
    requires forall w :: 0 <= w < |init| ==> OfThread(w, tags) == init[w] + SaidBy(w, actions)
    ensures Interleaves(tags, printed, events, init, actions)
  {}

  lemma InitialSaysNothing(events: seq<Event>, init: seq<seq<Message>>)
    ensures
      var s := Initial(events, init);
      && s.sent == [] && s.reported + Untold(s.main) == [] && Joined(s.main) == 0 && |s.workers| == |init|
      && Unreported(s.producer) == SaidOfErrors(events)
      && forall w :: 0 <= w < |init| ==> Unsent(s.workers[w]) == init[w]
  {
    assert [] + SaidOfErrors(events) == SaidOfErrors(events);
  }

  lemma FinishedIsSilent(s: State, all: seq<Path>)
    requires Kept(s, all) && s.main.Finished?
    ensures s.printed == s.sent && s.shown == s.reported && Unreported(s.producer) == [] && Joined(s.main) == 1
    ensures s.reported + Untold(s.main) == s.reported
    ensures forall w :: 0 <= w < |s.workers| ==> Unsent(s.workers[w]) == []
  {
    assert s.printed + [] == s.printed && s.shown + [] == s.shown && s.reported + [] == s.reported;
  }

  /** The messages of the first `n` workers. */
  function SaidByAll(init: seq<seq<Message>>, actions: seq<Action>, n: nat): seq<Message>
    requires n <= |init|
  {
    if n == 0 then [] else SaidByAll(init, actions, n - 1) + (init[n - 1] + SaidBy(n - 1, actions))
  }

  function Below(n: int, tags: seq<Tagged>): seq<Message> {
    if tags == [] then [] else (if tags[0].thread < n then [tags[0].message] else []) + Below(n, tags[1..])
  }

  lemma {:induction false} BelowNext(n: int, tags: seq<Tagged>)
    ensures multiset(Below(n + 1, tags)) == multiset(Below(n, tags)) + multiset(OfThread(n, tags))
  {
    if tags != [] {
      BelowNext(n, tags[1..]);
    }
  }

  lemma {:induction false} AllBelow(n: int, tags: seq<Tagged>)
    requires forall i :: 0 <= i < |tags| ==> tags[i].thread < n
    ensures Below(n, tags) == Messages(tags)
  {
    if tags != [] {
      AllBelow(n, tags[1..]);
    }
  }

  lemma {:induction false} NoneBelow(n: int, tags: seq<Tagged>)
    requires forall i :: 0 <= i < |tags| ==> tags[i].thread >= n
    ensures Below(n, tags) == []
  {
    if tags != [] {
      NoneBelow(n, tags[1..]);
    }
  }

  lemma ThreadOf(
      tags: seq<Tagged>, printed: seq<Message>, events: seq<Event>, init: seq<seq<Message>>, actions: seq<Action>)
    requires Interleaves(tags, printed, events, init, actions)
    ensures Below(PRODUCER, tags) == [] && OfThread(PRODUCER, tags) == SaidOfErrors(events)
    ensures forall w :: 0 <= w < |init| ==> OfThread(w, tags) == init[w] + SaidBy(w, actions)
  {
    NoneBelow(PRODUCER, tags);
  }

  lemma {:induction false} SaidBelow(
      tags: seq<Tagged>, printed: seq<Message>, events: seq<Event>, init: seq<seq<Message>>, actions: seq<Action>,
      n: nat)
    requires Interleaves(tags, printed, events, init, actions) && n <= |init|
    ensures multiset(Below(n, tags)) == multiset(SaidOfErrors(events)) + multiset(SaidByAll(init, actions, n))
  {
    hide *;
    ThreadOf(tags, printed, events, init, actions);
    if n == 0 {
      SaidByNone(tags, printed, events, init, actions);
    } else {
      SaidBelow(tags, printed, events, init, actions, n - 1);
      BelowNext(n - 1, tags);
      SaidByNext(init, actions, n);
      Added(multiset(Below(n - 1, tags)), multiset(OfThread(n - 1, tags)), multiset(SaidOfErrors(events)),
            multiset(SaidByAll(init, actions, n - 1)));
    }
  }

  lemma SaidByNone(
      tags: seq<Tagged>, printed: seq<Message>, events: seq<Event>, init: seq<seq<Message>>, actions: seq<Action>)
    requires Interleaves(tags, printed, events, init, actions)
    ensures multiset(Below(0, tags)) == multiset(SaidOfErrors(events)) + multiset(SaidByAll(init, actions, 0))
  {
    NoneBelow(PRODUCER, tags);
    BelowNext(PRODUCER, tags);
    hide Below, OfThread, SaidOfErrors;
    assert SaidByAll(init, actions, 0) == [];
  }

  lemma Added(below: multiset<Message>, now: multiset<Message>, errors: multiset<Message>, said: multiset<Message>)
    requires below == errors + said
    ensures below + now == errors + (said + now)
  {}

  lemma SaidByNext(init: seq<seq<Message>>, actions: seq<Action>, n: nat)
    requires 0 < n <= |init|
    ensures multiset(SaidByAll(init, actions, n)) ==
            multiset(SaidByAll(init, actions, n - 1)) + multiset(init[n - 1] + SaidBy(n - 1, actions))
  {}

  /** In a finished walk every message is printed as often as it was said, and nothing else is. */
  lemma PrintedAsOften(events: seq<Event>, init: seq<seq<Message>>, actions: seq<Action>, s: State)
    requires Leads(Initial(events, init), actions, s) && s.main.Finished?
    ensures multiset(s.printed) == multiset(SaidOfErrors(events)) + multiset(SaidByAll(init, actions, |init|))
  {
    var tags := AllSaidIsPrinted(events, init, actions, s);
    SaidBelow(tags, s.printed, events, init, actions, |init|);
    AllBelow(|init|, tags);
  }
}

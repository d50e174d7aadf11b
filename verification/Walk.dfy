/**
 The threads that walk a directory in parallel: one producer of paths, a number
 of workers, and the main thread, which prints the messages. A step of the
 system is a step of one thread. No callback asks for the walk to be aborted.
 */
module Walk {
  type Path = string
  type Message = string

  /** What the walker comes across: a path, or an error and what is said about it. */
  datatype Event = Found(path: Path) | Failed(messages: seq<Message>)

  datatype Producer = Walking(events: seq<Event>, todo: seq<Message>) | Walked

  /** `todo` holds the messages that the current callback has still to send. */
  datatype Worker =
    | Starting(todo: seq<Message>)
    | Idle
    | Busy(path: Path, todo: seq<Message>)
    | Finalizing(todo: seq<Message>)
    | Leaving   // its ends of the channels are dropped, its share of the state is not
    | Done

  datatype Main = Printing | Joining | Reporting(todo: seq<Message>) | Waiting | Finished(unwrapped: bool)

  datatype Second = NotStarted | Running | Ended

  datatype State = State(
    producer: Producer,
    workers: seq<Worker>,
    main: Main,
    second: Second,          // the thread that prints what is said after the walk
    paths: seq<Path>,        // the bounded channel of paths
    messages: seq<Message>,  // the unbounded channel of messages
    inbox: seq<Message>,     // the bounded channel of the second printer
    owners: int,             // references to the shared state
    // History
    begun: seq<Path>,
    done: seq<Path>,
    finalized: seq<nat>,
    sent: seq<Message>,
    printed: seq<Message>,
    reported: seq<Message>,
    shown: seq<Message>
  )

  const PATHS_CAPACITY := 128
  const INBOX_CAPACITY := 32

  /** `init` gives the messages of the initialization of each worker. */
  function Initial(events: seq<Event>, init: seq<seq<Message>>): State {
    State(
      Walking(events, []), seq(|init|, i requires 0 <= i < |init| => Starting(init[i])), Printing, NotStarted,
      [], [], [], 2 + |init|,
      [], [], seq(|init|, _ => 0), [], [], [], [])
  }

  // ----- Steps

  datatype Action =
    | Emit                                  // the producer takes the next event
    | Report                                // it sends a message about an error
    | CloseWalk                             // it ends and drops its channels
    | Speak(w: nat)                         // worker `w` sends a message
    | Start(w: nat)
    | Take(w: nat, said: seq<Message>)      // it receives a path and gives it to the action
    | Finish(w: nat)
    | Quit(w: nat, said: seq<Message>)      // the path channel is disconnected
    | HangUp(w: nat)
    | Exit(w: nat)
    | Print
    | Disconnect                            // the message channel is disconnected
    | Join(said: seq<Message>)              // all threads are joined, the second channel is made
    | Tell
    | Drop
    | Show
    | EndShow
    | Unwrap

  predicate HungUp(w: Worker) { w.Leaving? || w.Done? }

  predicate AllHungUp(ws: seq<Worker>) { forall i :: 0 <= i < |ws| ==> HungUp(ws[i]) }

  predicate AllDone(ws: seq<Worker>) { forall i :: 0 <= i < |ws| ==> ws[i].Done? }

  predicate Speaks(w: Worker) { (w.Starting? || w.Busy? || w.Finalizing?) && w.todo != [] }

  predicate EnabledProducer(s: State, a: Action)
    requires a.Emit? || a.Report? || a.CloseWalk?
  {
    && s.producer.Walking?
    && match a
       case Emit =>
         && s.producer.todo == [] && s.producer.events != []
         && (s.producer.events[0].Found? ==> |s.paths| < PATHS_CAPACITY)
       case Report => s.producer.todo != []
       case CloseWalk => s.producer.todo == [] && s.producer.events == []
  }

  predicate OfWorker(a: Action) {
    a.Speak? || a.Start? || a.Take? || a.Finish? || a.Quit? || a.HangUp? || a.Exit?
  }

  predicate EnabledWorker(s: State, a: Action)
    requires OfWorker(a)
  {
    && a.w < |s.workers|
    && var worker := s.workers[a.w];
       match a
       case Speak(_) => Speaks(worker)
       case Start(_) => worker == Starting([])
       case Take(_, _) => worker.Idle? && s.paths != []
       case Finish(_) => worker.Busy? && worker.todo == []
       case Quit(_, _) => worker.Idle? && s.paths == [] && s.producer.Walked?
       case HangUp(_) => worker == Finalizing([])
       case Exit(_) => worker.Leaving?
  }

  predicate EnabledMain(s: State, a: Action)
    requires !OfWorker(a) && !a.Emit? && !a.Report? && !a.CloseWalk?
  {
    match a
    case Print => s.main.Printing? && s.messages != []
    case Disconnect => s.main.Printing? && s.messages == [] && s.producer.Walked? && AllHungUp(s.workers)
    case Join(_) => s.main.Joining? && s.producer.Walked? && AllDone(s.workers)
    case Tell => s.main.Reporting? && s.main.todo != [] && |s.inbox| < INBOX_CAPACITY
    case Drop => s.main == Reporting([])
    case Show => s.second.Running? && s.inbox != []
    case EndShow => s.second.Running? && s.inbox == [] && s.main.Waiting?
    case Unwrap => s.main.Waiting? && s.second.Ended?
  }

  predicate Enabled(s: State, a: Action) {
    if OfWorker(a) then EnabledWorker(s, a)
    else if a.Emit? || a.Report? || a.CloseWalk? then EnabledProducer(s, a)
    else EnabledMain(s, a)
  }

  function NextProducer(s: State, a: Action): State
    requires (a.Emit? || a.Report? || a.CloseWalk?) && EnabledProducer(s, a)
  {
    var p := s.producer;
    match a
    case Emit =>
      (match p.events[0]
       case Found(path) => s.(producer := Walking(p.events[1..], []), paths := s.paths + [path])
       case Failed(said) => s.(producer := Walking(p.events[1..], said)))
    case Report =>
      s.(producer := Walking(p.events, p.todo[1..]), messages := s.messages + [p.todo[0]], sent := s.sent + [p.todo[0]])
    case CloseWalk => s.(producer := Walked)
  }

  function Quieter(w: Worker): Worker
    requires Speaks(w)
  {
    match w
    case Starting(todo) => Starting(todo[1..])
    case Busy(path, todo) => Busy(path, todo[1..])
    case Finalizing(todo) => Finalizing(todo[1..])
  }

  function NextWorker(s: State, a: Action): State
    requires OfWorker(a) && EnabledWorker(s, a)
  {
    var worker := s.workers[a.w];
    match a
    case Speak(w) =>
      s.(workers := s.workers[w := Quieter(worker)], messages := s.messages + [worker.todo[0]],
         sent := s.sent + [worker.todo[0]])
    case Start(w) => s.(workers := s.workers[w := Idle])
    case Take(w, said) =>
      s.(workers := s.workers[w := Busy(s.paths[0], said)], paths := s.paths[1..], begun := s.begun + [s.paths[0]])
    case Finish(w) => s.(workers := s.workers[w := Idle], done := s.done + [worker.path])
    case Quit(w, said) =>
      s.(workers := s.workers[w := Finalizing(said)],
         finalized := if w < |s.finalized| then s.finalized[w := s.finalized[w] + 1] else s.finalized)
    case HangUp(w) => s.(workers := s.workers[w := Leaving])
    case Exit(w) => s.(workers := s.workers[w := Done], owners := s.owners - 1)
  }

  function NextMain(s: State, a: Action): State
    requires !OfWorker(a) && !a.Emit? && !a.Report? && !a.CloseWalk? && EnabledMain(s, a)
  {
    match a
    case Print => s.(messages := s.messages[1..], printed := s.printed + [s.messages[0]])
    case Disconnect => s.(main := Joining, owners := s.owners - 1)
    case Join(said) => s.(main := Reporting(said), second := Running, owners := s.owners + 2)
    case Tell =>
      s.(main := Reporting(s.main.todo[1..]), inbox := s.inbox + [s.main.todo[0]],
         reported := s.reported + [s.main.todo[0]])
    case Drop => s.(main := Waiting)
    case Show => s.(inbox := s.inbox[1..], shown := s.shown + [s.inbox[0]])
    case EndShow => s.(second := Ended, owners := s.owners - 2)
    case Unwrap => s.(main := Finished(s.owners == 1))
  }

  function Next(s: State, a: Action): State
    requires Enabled(s, a)
  {
    if OfWorker(a) then NextWorker(s, a)
    else if a.Emit? || a.Report? || a.CloseWalk? then NextProducer(s, a)
    else NextMain(s, a)
  }

  /** Some run leads from `s` to `t`. */
  ghost predicate Leads(s: State, actions: seq<Action>, t: State)
    decreases |actions|
  {
    if actions == [] then s == t
    else Enabled(s, actions[0]) && Leads(Next(s, actions[0]), actions[1..], t)
  }

  // ----- Sums over the workers

  function Sum(f: Worker -> nat, ws: seq<Worker>): nat {
    if ws == [] then 0 else f(ws[0]) + Sum(f, ws[1..])
  }

  lemma {:induction false} SumUpdate(f: Worker -> nat, ws: seq<Worker>, i: nat, w: Worker)
    requires i < |ws|
    ensures Sum(f, ws[i := w]) + f(ws[i]) == Sum(f, ws) + f(w)
    decreases |ws|
  {
    if i == 0 {
      assert ws[i := w][1..] == ws[1..];
    } else {
      assert ws[i := w][1..] == ws[1..][i - 1 := w];
      SumUpdate(f, ws[1..], i - 1, w);
    }
  }

  lemma {:induction false} SumOfNothing(f: Worker -> nat, ws: seq<Worker>)
    requires forall i :: 0 <= i < |ws| ==> f(ws[i]) == 0
    ensures Sum(f, ws) == 0
    decreases |ws|
  {
    if ws != [] {
      SumOfNothing(f, ws[1..]);
    }
  }

  lemma {:induction false} SumOfOnes(f: Worker -> nat, ws: seq<Worker>)
    requires forall i :: 0 <= i < |ws| ==> f(ws[i]) == 1
    ensures Sum(f, ws) == |ws|
    decreases |ws|
  {
    if ws != [] {
      SumOfOnes(f, ws[1..]);
    }
  }

  function Held(w: Worker): multiset<Path> { if w.Busy? then multiset{w.path} else multiset{} }

  /** The paths that the workers are processing. */
  function InHand(ws: seq<Worker>): multiset<Path> {
    if ws == [] then multiset{} else Held(ws[0]) + InHand(ws[1..])
  }

  lemma AddToBoth(h: multiset<Path>, a: multiset<Path>, x: multiset<Path>, b: multiset<Path>, y: multiset<Path>)
    requires a + x == b + y
    ensures h + a + x == h + b + y
  {
    assert h + a + x == h + (a + x);
    assert h + b + y == h + (b + y);
  }

  lemma InHandCons(w: Worker, rest: seq<Worker>)
    ensures InHand([w] + rest) == Held(w) + InHand(rest)
  {
    hide Held;
    assert ([w] + rest)[1..] == rest;
  }

  lemma {:induction false} InHandUpdate(ws: seq<Worker>, i: nat, w: Worker)
    requires i < |ws|
    ensures InHand(ws[i := w]) + Held(ws[i]) == InHand(ws) + Held(w)
    decreases |ws|
  {
    hide Held, InHand;
    var rest := ws[1..];
    assert ws == [ws[0]] + rest;
    InHandCons(ws[0], rest);
    if i == 0 {
      InHandCons(w, rest);
      assert ws[i := w] == [w] + rest;
      assert Held(w) + InHand(rest) + Held(ws[0]) == Held(ws[0]) + InHand(rest) + Held(w);
    } else {
      InHandCons(ws[0], rest[i - 1 := w]);
      assert ws[i := w] == [ws[0]] + rest[i - 1 := w];
      InHandUpdate(rest, i - 1, w);
      AddToBoth(Held(ws[0]), InHand(rest[i - 1 := w]), Held(ws[i]), InHand(rest), Held(w));
    }
  }

  lemma {:induction false} NothingInHand(ws: seq<Worker>)
    requires forall i :: 0 <= i < |ws| ==> !ws[i].Busy?
    ensures InHand(ws) == multiset{}
    decreases |ws|
  {
    if ws != [] {
      NothingInHand(ws[1..]);
    }
  }

  // ----- What every step keeps

  function Paths(events: seq<Event>): seq<Path> {
    if events == [] then []
    else (if events[0].Found? then [events[0].path] else []) + Paths(events[1..])
  }

  function Ahead(p: Producer): seq<Path> { if p.Walking? then Paths(p.events) else [] }

  /** Every path is in exactly one place, in the order in which it was found. */
  predicate PathsKept(s: State, all: seq<Path>) {
    && s.begun + s.paths + Ahead(s.producer) == all
    && |s.paths| <= PATHS_CAPACITY
    && multiset(s.begun) == multiset(s.done) + InHand(s.workers)
  }

  /** Every message is printed in the order in which it was sent. */
  predicate MessagesKept(s: State) {
    && s.printed + s.messages == s.sent
    && s.shown + s.inbox == s.reported
    && |s.inbox| <= INBOX_CAPACITY
  }

  predicate Finalized(w: Worker) { w.Finalizing? || HungUp(w) }

  predicate WorkerKept(s: State, w: nat)
    requires w < |s.workers| == |s.finalized|
  {
    && s.finalized[w] == (if Finalized(s.workers[w]) then 1 else 0)
    && (Finalized(s.workers[w]) ==> s.producer.Walked? && s.paths == [])
  }

  predicate WorkersKept(s: State) {
    |s.workers| == |s.finalized| && forall w :: 0 <= w < |s.workers| ==> WorkerKept(s, w)
  }

  function Owning(w: Worker): nat { if w.Done? then 0 else 1 }

  /** Every reference to the shared state is accounted for. */
  predicate OwnersKept(s: State) {
    s.owners == 1 + Sum(Owning, s.workers) + (if s.main.Printing? then 1 else 0) + (if s.second.Running? then 2 else 0)
  }

  predicate MainKept(s: State) {
    match s.main
    case Printing => s.second.NotStarted?
    case Joining => s.second.NotStarted? && s.messages == [] && s.producer.Walked? && AllHungUp(s.workers)
    case Reporting(_) => s.second.Running? && s.messages == [] && s.producer.Walked? && AllDone(s.workers)
    case Waiting =>
      && (s.second.Running? || (s.second.Ended? && s.inbox == []))
      && s.messages == [] && s.producer.Walked? && AllDone(s.workers)
    case Finished(unwrapped) =>
      && s.second.Ended? && s.inbox == [] && s.messages == [] && s.producer.Walked? && AllDone(s.workers)
      && unwrapped
  }

  predicate Kept(s: State, all: seq<Path>) {
    PathsKept(s, all) && MessagesKept(s) && WorkersKept(s) && OwnersKept(s) && MainKept(s)
  }

  lemma InitialIsKept(events: seq<Event>, init: seq<seq<Message>>)
    ensures Kept(Initial(events, init), Paths(events))
  {
    var s := Initial(events, init);
    NothingInHand(s.workers);
    SumOfOnes(Owning, s.workers);
    assert [] + Paths(events) == Paths(events);
  }

  lemma OrderStep(s: State, a: Action, all: seq<Path>)
    requires PathsKept(s, all) && Enabled(s, a)
    ensures var t := Next(s, a); t.begun + t.paths + Ahead(t.producer) == all && |t.paths| <= PATHS_CAPACITY
  {
    hide InHand;
    var t := Next(s, a);
    if a.Take? {
      assert s.paths == [s.paths[0]] + s.paths[1..];
      assert t.begun + t.paths == s.begun + s.paths;
    } else if a.Emit? {
      var events := s.producer.events;
      var found := if events[0].Found? then [events[0].path] else [];
      assert s.begun + s.paths + (found + Paths(events[1..])) == s.begun + (s.paths + found) + Paths(events[1..]);
      assert t.paths == s.paths + found;
    }
  }

  /** What a worker begins and what it finishes in one step. */
  lemma WorkerMoves(s: State, a: Action) returns (x: multiset<Path>, y: multiset<Path>)
    requires OfWorker(a) && EnabledWorker(s, a)
    ensures
      var t := NextWorker(s, a);
      && a.w < |t.workers| == |s.workers| && t.workers == s.workers[a.w := t.workers[a.w]]
      && multiset(t.begun) == multiset(s.begun) + x && multiset(t.done) == multiset(s.done) + y
      && Held(t.workers[a.w]) + y == Held(s.workers[a.w]) + x
  {
    x := if a.Take? then multiset{s.paths[0]} else multiset{};
    y := if a.Finish? then multiset{s.workers[a.w].path} else multiset{};
  }

  /** What is begun stays the sum of what is done and what is held. */
  lemma Balance(begun: multiset<Path>, done: multiset<Path>, hand: multiset<Path>, next: multiset<Path>,
                held: multiset<Path>, now: multiset<Path>, x: multiset<Path>, y: multiset<Path>)
    requires begun == done + hand && next + held == hand + now && now + y == held + x
    ensures begun + x == done + y + next
  {
    forall p ensures (begun + x)[p] == (done + y + next)[p] {
      assert (next + held)[p] == (hand + now)[p] && (now + y)[p] == (held + x)[p];
    }
  }

  lemma DoneStep(s: State, a: Action)
    requires OfWorker(a) && EnabledWorker(s, a) && multiset(s.begun) == multiset(s.done) + InHand(s.workers)
    ensures var t := NextWorker(s, a); multiset(t.begun) == multiset(t.done) + InHand(t.workers)
  {
    hide NextWorker, EnabledWorker, InHand, Held;
    var t := NextWorker(s, a);
    var x, y := WorkerMoves(s, a);
    InHandUpdate(s.workers, a.w, t.workers[a.w]);
    Balance(multiset(s.begun), multiset(s.done), InHand(s.workers), InHand(t.workers),
            Held(s.workers[a.w]), Held(t.workers[a.w]), x, y);
  }

  lemma PathsStep(s: State, a: Action, all: seq<Path>)
    requires PathsKept(s, all) && Enabled(s, a)
    ensures PathsKept(Next(s, a), all)
  {
    OrderStep(s, a, all);
    if OfWorker(a) {
      DoneStep(s, a);
    } else {
      OthersMoveNothing(s, a);
    }
    hide Enabled, Next, InHand, Ahead;
  }

  lemma OthersMoveNothing(s: State, a: Action)
    requires Enabled(s, a) && !OfWorker(a)
    ensures var t := Next(s, a); t.begun == s.begun && t.done == s.done && t.workers == s.workers
  {}

  lemma OneMoreSent(printed: seq<Message>, messages: seq<Message>, m: Message)
    ensures printed + (messages + [m]) == printed + messages + [m]
  {}

  lemma OneMorePrinted(printed: seq<Message>, messages: seq<Message>)
    requires messages != []
    ensures printed + [messages[0]] + messages[1..] == printed + messages
  {}

  lemma MessagesStep(s: State, a: Action)
    requires MessagesKept(s) && Enabled(s, a)
    ensures MessagesKept(Next(s, a))
  {
    match a
    case Speak(w) => OneMoreSent(s.printed, s.messages, s.workers[w].todo[0]);
    case Report => OneMoreSent(s.printed, s.messages, s.producer.todo[0]);
    case Print => OneMorePrinted(s.printed, s.messages);
    case Tell => OneMoreSent(s.shown, s.inbox, s.main.todo[0]);
    case Show => OneMorePrinted(s.shown, s.inbox);
    case _ =>
  }

  lemma WorkersStep(s: State, a: Action)
    requires WorkersKept(s) && Enabled(s, a)
    ensures WorkersKept(Next(s, a))
  {
    var t := Next(s, a);
    forall w | 0 <= w < |t.workers| ensures WorkerKept(t, w) {
      assert WorkerKept(s, w);
    }
  }

  lemma OwnersStep(s: State, a: Action)
    requires OwnersKept(s) && MainKept(s) && Enabled(s, a)
    ensures OwnersKept(Next(s, a))
  {
    if OfWorker(a) {
      SumUpdate(Owning, s.workers, a.w, Next(s, a).workers[a.w]);
    }
  }

  lemma MainStep(s: State, a: Action)
    requires OwnersKept(s) && MainKept(s) && Enabled(s, a)
    ensures MainKept(Next(s, a))
  {
    if a.Unwrap? {
      SumOfNothing(Owning, s.workers);
    }
  }

  lemma StepKeeps(s: State, a: Action, all: seq<Path>)
    requires Kept(s, all) && Enabled(s, a)
    ensures Kept(Next(s, a), all)
  {
    PathsStep(s, a, all);
    MessagesStep(s, a);
    WorkersStep(s, a);
    OwnersStep(s, a);
    MainStep(s, a);
  }

  lemma {:induction false} RunKeeps(s: State, actions: seq<Action>, t: State, all: seq<Path>)
    requires Kept(s, all) && Leads(s, actions, t)
    ensures Kept(t, all)
    decreases |actions|
  {
    if actions != [] {
      StepKeeps(s, actions[0], all);
      RunKeeps(Next(s, actions[0]), actions[1..], t, all);
    }
  }

  // ----- What a run achieves

  /** In every state: paths are begun in order, and both bounded channels stay bounded. */
  lemma EveryStateIsSafe(events: seq<Event>, init: seq<seq<Message>>, actions: seq<Action>, s: State)
    requires Leads(Initial(events, init), actions, s)
    ensures s.begun <= Paths(events) && multiset(s.done) <= multiset(s.begun)
    ensures |s.paths| <= 128 && |s.inbox| <= 32
    ensures s.printed <= s.sent && s.shown <= s.reported
    ensures |s.finalized| == |s.workers| && forall w :: 0 <= w < |s.workers| ==> s.finalized[w] <= 1
  {
    InitialIsKept(events, init);
    RunKeeps(Initial(events, init), actions, s, Paths(events));
    hide Initial, Leads, Paths, InHand, Ahead, OwnersKept, MainKept, Finalized;
    assert Paths(events) == s.begun + (s.paths + Ahead(s.producer));
    forall w | 0 <= w < |s.workers| ensures s.finalized[w] <= 1 {
      assert WorkerKept(s, w);
    }
  }

  /** At the end every path was processed once, and all that was said is printed. */
  lemma FinishedIsComplete(events: seq<Event>, init: seq<seq<Message>>, actions: seq<Action>, s: State)
    requires Leads(Initial(events, init), actions, s) && s.main.Finished? && init != []
    ensures s.begun == Paths(events) && multiset(s.done) == multiset(Paths(events))
    ensures s.printed == s.sent && s.shown == s.reported
    ensures |s.finalized| == |s.workers| == |init| && forall w :: 0 <= w < |s.workers| ==> s.finalized[w] == 1
    ensures s.main.unwrapped
  {
    var all := Paths(events);
    InitialIsKept(events, init);
    RunKeeps(Initial(events, init), actions, s, all);
    WorkersStay(Initial(events, init), actions, s);
    assert WorkerKept(s, 0);
    NothingInHand(s.workers);
    assert s.begun + s.paths + Ahead(s.producer) == s.begun;
    forall w | 0 <= w < |s.workers| ensures s.finalized[w] == 1 {
      assert WorkerKept(s, w);
    }
  }

  lemma {:induction false} WorkersStay(s: State, actions: seq<Action>, t: State)
    requires Leads(s, actions, t)
    ensures |t.workers| == |s.workers|
    decreases |actions|
  {
    if actions != [] {
      WorkersStay(Next(s, actions[0]), actions[1..], t);
    }
  }

  // ----- No state is stuck

  /** A thread that can make a step before the walk is over. */
  lemma ThreadCanStep(s: State, all: seq<Path>) returns (a: Action)
    requires Kept(s, all) && s.main.Printing? && s.messages == []
    requires s.workers != []
    requires !s.producer.Walked? || !AllHungUp(s.workers)
    ensures Enabled(s, a)
  {
    if i :| 0 <= i < |s.workers| && !HungUp(s.workers[i]) && !s.workers[i].Idle? {
      match s.workers[i]
      case Starting(todo) => a := if todo == [] then Start(i) else Speak(i);
      case Busy(_, todo) => a := if todo == [] then Finish(i) else Speak(i);
      case Finalizing(todo) => a := if todo == [] then HangUp(i) else Speak(i);
    } else if i :| 0 <= i < |s.workers| && s.workers[i].Idle? && (s.paths != [] || s.producer.Walked?) {
      a := if s.paths != [] then Take(i, []) else Quit(i, []);
    } else {
      assert WorkerKept(s, 0);
      assert s.producer.Walking?;
      a := if s.producer.todo != [] then Report else if s.producer.events != [] then Emit else CloseWalk;
    }
  }

  /** With at least one worker, or after the walk, some step is possible until all is over. */
  lemma NeverStuck(s: State, all: seq<Path>) returns (a: Action)
    requires Kept(s, all) && !s.main.Finished?
    requires s.workers != [] || !s.main.Printing? || s.messages != []
    ensures Enabled(s, a)
  {
    match s.main
    case Printing =>
      if s.messages != [] {
        a := Print;
      } else if s.producer.Walked? && AllHungUp(s.workers) {
        a := Disconnect;
      } else {
        a := ThreadCanStep(s, all);
      }
    case Joining =>
      if i :| 0 <= i < |s.workers| && s.workers[i].Leaving? {
        a := Exit(i);
      } else {
        a := Join([]);
      }
    case Reporting(todo) =>
      a := if todo == [] then Drop else if |s.inbox| < INBOX_CAPACITY then Tell else Show;
    case Waiting =>
      a := if s.second.Ended? then Unwrap else if s.inbox == [] then EndShow else Show;
  }

  // ----- Every run ends

  function WorkerRank(w: Worker): nat {
    match w
    case Starting(_) => 5
    case Busy(_, _) => 5
    case Idle => 4
    case Finalizing(_) => 3
    case Leaving => 2
    case Done => 0
  }

  /** What is left to do, apart from passing messages on. */
  function Work(s: State): nat {
    (if s.producer.Walking? then 3 * |s.producer.events| + 1 else 0)
    + 2 * |s.paths| + Sum(WorkerRank, s.workers)
    + (match s.main case Printing => 6 case Joining => 5 case Reporting(_) => 3 case Waiting => 2 case Finished(_) => 0)
    + (match s.second case NotStarted => 2 case Running => 1 case Ended => 0)
  }

  function Unsaid(w: Worker): nat { if w.Starting? || w.Busy? || w.Finalizing? then |w.todo| else 0 }

  /** The messages still to be sent and to be printed. */
  function Talk(s: State): nat {
    2 * ((if s.producer.Walking? then |s.producer.todo| else 0) + Sum(Unsaid, s.workers)
         + (if s.main.Reporting? then |s.main.todo| else 0))
    + |s.messages| + |s.inbox|
  }

  predicate PassesOn(a: Action) { a.Speak? || a.Report? || a.Print? || a.Tell? || a.Show? }

  predicate Lower(t: State, s: State, a: Action) {
    if PassesOn(a) then Work(t) == Work(s) && Talk(t) < Talk(s) else Work(t) < Work(s)
  }

  lemma WorkerDecreases(s: State, a: Action)
    requires OfWorker(a) && EnabledWorker(s, a)
    ensures Lower(NextWorker(s, a), s, a)
  {
    var t := NextWorker(s, a);
    hide Sum;
    SumUpdate(WorkerRank, s.workers, a.w, t.workers[a.w]);
    SumUpdate(Unsaid, s.workers, a.w, t.workers[a.w]);
    assert a.Speak? ==> Unsaid(t.workers[a.w]) == Unsaid(s.workers[a.w]) - 1;
  }

  /** Every step leaves less work, or as much work and less talk. */
  lemma StepDecreases(s: State, a: Action)
    requires Enabled(s, a)
    ensures Lower(Next(s, a), s, a)
  {
    hide Sum, Lower;
    if OfWorker(a) {
      WorkerDecreases(s, a);
    } else if a.Emit? || a.Report? || a.CloseWalk? {
      ProducerDecreases(s, a);
    } else {
      MainDecreases(s, a);
    }
  }

  lemma ProducerDecreases(s: State, a: Action)
    requires (a.Emit? || a.Report? || a.CloseWalk?) && EnabledProducer(s, a)
    ensures Lower(NextProducer(s, a), s, a)
  {
    hide Sum;
  }

  lemma MainDecreases(s: State, a: Action)
    requires !OfWorker(a) && !a.Emit? && !a.Report? && !a.CloseWalk? && EnabledMain(s, a)
    ensures Lower(NextMain(s, a), s, a)
  {
    hide Sum;
  }

  ghost predicate Continues(run: nat -> State, next: nat -> Action, k: nat) {
    Enabled(run(k), next(k)) && run(k + 1) == Next(run(k), next(k))
  }

  /** There is no infinite run. */
  lemma {:induction false} NoInfiniteRun(run: nat -> State, next: nat -> Action, k: nat)
    requires forall i: nat :: i >= k ==> Continues(run, next, i)
    ensures false
    decreases Work(run(k)), Talk(run(k))
  {
    assert Continues(run, next, k);
    StepDecreases(run(k), next(k));
    NoInfiniteRun(run, next, k + 1);
  }

  // ----- When the walk returns

  predicate Unable(s: State, a: Action) { !Enabled(s, a) }

  /** No thread can make a step. */
  ghost predicate Stuck(s: State) { forall a :: Unable(s, a) }

  /** No worker, a full channel of paths and one more path to send. */
  predicate Blocked(s: State) {
    && s.workers == [] && s.main.Printing? && s.messages == [] && s.producer.Walking? && s.producer.todo == []
    && s.producer.events != [] && s.producer.events[0].Found? && |s.paths| == PATHS_CAPACITY
  }

  /** A state without a possible step is the final one or a blocked one. */
  lemma StuckExactly(s: State, all: seq<Path>)
    requires Kept(s, all)
    ensures Stuck(s) <==> s.main.Finished? || Blocked(s)
  {
    if s.main.Finished? || Blocked(s) {
      forall a ensures Unable(s, a) {}
    } else {
      var a := if s.producer.Walked? then Disconnect
               else if s.producer.todo != [] then Report
               else if s.producer.events != [] then Emit else CloseWalk;
      if s.workers != [] || !s.main.Printing? || s.messages != [] {
        a := NeverStuck(s, all);
      }
      assert !Unable(s, a);
    }
  }

  /** A blocked state has more paths than the channel holds. */
  lemma BlockedNeedsPaths(s: State, all: seq<Path>)
    requires Kept(s, all) && Blocked(s)
    ensures |all| > PATHS_CAPACITY
  {
    assert |Ahead(s.producer)| > 0;
    assert |all| == |s.begun| + |s.paths| + |Ahead(s.producer)|;
  }

  /** Without workers no path is ever begun. */
  lemma {:induction false} NothingBegun(s: State, actions: seq<Action>, t: State)
    requires Leads(s, actions, t) && s.workers == []
    ensures t.workers == [] && t.begun == s.begun
    decreases |actions|
  {
    if actions != [] {
      NothingBegun(Next(s, actions[0]), actions[1..], t);
    }
  }

  /** Every run can go on until no step is left. */
  lemma {:induction false} RunOn(s: State, all: seq<Path>) returns (actions: seq<Action>, t: State)
    requires Kept(s, all)
    ensures Leads(s, actions, t) && Stuck(t)
    decreases Work(s), Talk(s)
  {
    if Stuck(s) {
      actions, t := [], s;
    } else {
      var a :| !Unable(s, a);
      StepKeeps(s, a, all);
      StepDecreases(s, a);
      var more, last := RunOn(Next(s, a), all);
      actions, t := [a] + more, last;
      assert actions[1..] == more;
    }
  }

  predicate TooManyPaths(events: seq<Event>, init: seq<seq<Message>>) {
    init == [] && |Paths(events)| > 128
  }

  /** How a run that cannot go on has ended depends on the number of threads and paths only. */
  lemma StuckRunEnds(events: seq<Event>, init: seq<seq<Message>>, actions: seq<Action>, s: State)
    requires Leads(Initial(events, init), actions, s) && Stuck(s)
    ensures s.main.Finished? <==> !TooManyPaths(events, init)
  {
    var all, first := Paths(events), Initial(events, init);
    InitialIsKept(events, init);
    RunKeeps(first, actions, s, all);
    StuckExactly(s, all);
    WorkersStay(first, actions, s);
    if Blocked(s) {
      BlockedNeedsPaths(s, all);
    }
    if init == [] && s.main.Finished? {
      NothingBegun(first, actions, s);
      assert [] + s.paths + [] == all;
    }
  }

  ghost predicate Ends(events: seq<Event>, init: seq<seq<Message>>, finished: bool) {
    exists actions, s :: Leads(Initial(events, init), actions, s) && Stuck(s) && s.main.Finished? == finished
  }

  /**
   For all that the walker comes across, and any number of threads: some run
   stays unfinished without a step exactly if there is no thread and there are
   more than 128 paths, and otherwise some run finishes.
   */
  lemma BlocksExactly(events: seq<Event>, init: seq<seq<Message>>)
    ensures Ends(events, init, false) <==> TooManyPaths(events, init)
    ensures Ends(events, init, true) <==> !TooManyPaths(events, init)
  {
    InitialIsKept(events, init);
    var actions, s := RunOn(Initial(events, init), Paths(events));
    StuckRunEnds(events, init, actions, s);
    assert Ends(events, init, s.main.Finished?);
    if Ends(events, init, !s.main.Finished?) {
      var other, t :| Leads(Initial(events, init), other, t) && Stuck(t) && t.main.Finished? == !s.main.Finished?;
      StuckRunEnds(events, init, other, t);
    }
  }

  /** A finished walk has processed every path exactly if there was a thread or no path. */
  lemma FinishedWithoutWorkers(events: seq<Event>, init: seq<seq<Message>>, actions: seq<Action>, s: State)
    requires Leads(Initial(events, init), actions, s) && s.main.Finished?
    ensures s.begun == Paths(events) <==> init != [] || Paths(events) == []
  {
    if init == [] {
      NothingBegun(Initial(events, init), actions, s);
    } else {
      FinishedIsComplete(events, init, actions, s);
    }
  }
}

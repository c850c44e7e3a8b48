/**
 Tasks on deferring executors (coroutine/include/6sleep): coroutine bodies, their direct-style meaning,
 and the steps by which dispatch, sleep and task awaiters run them.
 */
module Coroutines {
  import opened Options

  /**
   The body of a coroutine. Its locals are its arguments and the values awaited so far; its handles are
   the tasks it created so far. Control may depend on any local.
   */
  datatype Prog<!V> =
    | Return(value: seq<V> -> V)                                       // co_return value(locals)
    | Sleep(delay: int, next: Prog<V>)                                 // co_await of a duration
    | Call(child: Prog<V>, args: seq<V> -> seq<V>, next: Prog<V>)      // call a coroutine and keep its Task
    | Await(handle: nat, next: Prog<V>)                                // co_await of a Task
    | Branch(test: seq<V> -> bool, yes: Prog<V>, no: Prog<V>)

  /** Only tasks that were created are awaited. */
  predicate WellFormed<V>(p: Prog<V>, handles: nat) {
    match p
    case Return(_) => true
    case Sleep(_, next) => WellFormed(next, handles)
    case Call(child, _, next) => WellFormed(child, 0) && WellFormed(next, handles + 1)
    case Await(h, next) => h < handles && WellFormed(next, handles)
    case Branch(_, yes, no) => WellFormed(yes, handles) && WellFormed(no, handles)
  }

  /** Direct style: a call runs the callee at once, an await reads its value, a sleep does nothing. */
  function Eval<V>(p: Prog<V>, locals: seq<V>, values: seq<V>): V
    requires WellFormed(p, |values|)
  {
    match p
    case Return(value) => value(locals)
    case Sleep(_, next) => Eval(next, locals, values)
    case Call(child, args, next) => Eval(next, locals, values + [Eval(child, args(locals), [])])
    case Await(h, next) => Eval(next, locals + [values[h]], values)
    case Branch(test, yes, no) => if test(locals) then Eval(yes, locals, values) else Eval(no, locals, values)
  }

  /** handle.resume() for suspension number `epoch` of coroutine `id`. */
  datatype Token = Token(id: nat, epoch: nat)

  /** Suspended: at suspension point number `epoch`, waiting for the result of `awaited` if there is one. */
  datatype Status = Suspended(epoch: nat, awaited: Option<nat>) | Active | Finished

  /**
   A coroutine frame with its promise: the body it was created with and its arguments, the rest of the
   body, locals, handles (ids of its tasks), the number of suspensions so far, result and callbacks.
   */
  datatype Co<!V> = Co(
    body: Prog<V>, args: seq<V>, rest: Prog<V>, locals: seq<V>, tasks: seq<nat>,
    status: Status, epochs: nat, result: Option<V>, callbacks: seq<Token>)

  /** A new coroutine is suspended at its initial suspension point, number 0. */
  function NewCo<V>(body: Prog<V>, args: seq<V>): Co<V> {
    Co(body, args, body, args, [], Suspended(0, None), 0, None, [])
  }

  /**
   ready: resumes handed to executors; timers: resumes handed to the scheduler; due: when the scheduler may run
   them; now: the clock; resumed: the log of resumes.
   */
  datatype State<!V> = State(
    cos: seq<Co<V>>, ready: multiset<Token>, timers: multiset<Token>, due: map<Token, int>, now: int,
    resumed: seq<Token>)

  function Init<V>(): State<V> {
    State([], multiset{}, multiset{}, map[], 0, [])
  }

  datatype Step<!V> =
    | Start(body: Prog<V>, args: seq<V>)     // a thread outside calls a coroutine
    | Tick(d: nat)                           // time passes
    | Fire(token: Token)                     // the scheduler runs a due function: the executor gets the resume
    | Resume(token: Token)                   // an executor thread runs a resume
    | Advance(id: nat)                       // an active coroutine runs up to its next effect

  predicate Enabled<V>(s: State<V>, step: Step<V>) {
    match step
    case Start(body, _) => WellFormed(body, 0)
    case Tick(_) => true
    case Fire(token) => token in s.timers && token in s.due && s.due[token] <= s.now
    case Resume(token) =>
      && token in s.ready && token.id < |s.cos|
      && s.cos[token.id].status.Suspended?
      // get_result in await_resume would block without a result
      && (s.cos[token.id].status.awaited.Some? ==>
            s.cos[token.id].status.awaited.value < |s.cos| && s.cos[s.cos[token.id].status.awaited.value].result.Some?)
    case Advance(id) =>
      && id < |s.cos| && s.cos[id].status.Active?
      && (s.cos[id].rest.Call? ==> WellFormed(s.cos[id].rest.child, 0))
      && (s.cos[id].rest.Await? ==>
            s.cos[id].rest.handle < |s.cos[id].tasks| && s.cos[id].tasks[s.cos[id].rest.handle] < |s.cos|)
  }

  /** The continuation point after a resume: the awaited value, if any, becomes a local. */
  function Resumed<V>(s: State<V>, id: nat): Co<V>
    requires id < |s.cos| && s.cos[id].status.Suspended?
    requires s.cos[id].status.awaited.Some? ==>
               s.cos[id].status.awaited.value < |s.cos| && s.cos[s.cos[id].status.awaited.value].result.Some?
  {
    var c := s.cos[id];
    if c.status.awaited.None? then c.(status := Active)
    else c.(status := Active, locals := c.locals + [s.cos[c.status.awaited.value].result.value])
  }

  /** await_suspend of a task: if the child is finished hand the resume to the executor, else register it there. */
  function Awaiting<V>(s: State<V>, id: nat): State<V>
    requires Enabled(s, Advance(id)) && s.cos[id].rest.Await?
  {
    var c := s.cos[id];
    var child := c.tasks[c.rest.handle];
    var token := Token(id, c.epochs + 1);
    var parked := c.(rest := c.rest.next, status := Suspended(c.epochs + 1, Some(child)), epochs := c.epochs + 1);
    var cos := s.cos[id := parked];
    if cos[child].result.Some? then s.(cos := cos, ready := s.ready + multiset{token})
    else s.(cos := cos[child := cos[child].(callbacks := cos[child].callbacks + [token])])
  }

  function Apply<V>(s: State<V>, step: Step<V>): State<V>
    requires Enabled(s, step)
  {
    match step
    case Start(body, args) =>
      s.(cos := s.cos + [NewCo(body, args)], ready := s.ready + multiset{Token(|s.cos|, 0)})
    case Tick(d) => s.(now := s.now + d)
    case Fire(token) => s.(timers := s.timers - multiset{token}, ready := s.ready + multiset{token})
    case Resume(token) =>
      s.(cos := s.cos[token.id := Resumed(s, token.id)], ready := s.ready - multiset{token},
         resumed := s.resumed + [token])
    case Advance(id) =>
      var c := s.cos[id];
      match c.rest
      case Return(value) =>
        // return_value: store the result, then every callback hands its resume to an executor
        s.(cos := s.cos[id := c.(status := Finished, result := Some(value(c.locals)), callbacks := [])],
           ready := s.ready + multiset(c.callbacks))
      case Sleep(delay, next) =>
        s.(cos := s.cos[id := c.(rest := next, status := Suspended(c.epochs + 1, None), epochs := c.epochs + 1)],
           timers := s.timers + multiset{Token(id, c.epochs + 1)},
           due := s.due[Token(id, c.epochs + 1) := s.now + if delay < 0 then 0 else delay])
      case Call(child, args, next) =>
        s.(cos := s.cos[id := c.(rest := next, tasks := c.tasks + [|s.cos|])] + [NewCo(child, args(c.locals))],
           ready := s.ready + multiset{Token(|s.cos|, 0)})
      case Await(_, _) => Awaiting(s, id)
      case Branch(test, yes, no) =>
        s.(cos := s.cos[id := c.(rest := if test(c.locals) then yes else no)])
  }

  predicate CanRun<V>(s: State<V>, steps: seq<Step<V>>)
    decreases steps
  {
    steps == [] || (Enabled(s, steps[0]) && CanRun(Apply(s, steps[0]), steps[1..]))
  }

  function Run<V>(s: State<V>, steps: seq<Step<V>>): State<V>
    requires CanRun(s, steps)
    decreases steps
  {
    if steps == [] then s else Run(Apply(s, steps[0]), steps[1..])
  }
}

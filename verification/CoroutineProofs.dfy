/** The concurrent runs of a tree of tasks refine its direct-style meaning, lose no resume, and come to an end. */
module CoroutineProofs {
  import opened Sums
  import opened Options
  import opened Coroutines

  /** What the coroutine would return in direct style. */
  ghost function Meaning<V>(c: Co<V>): V
    requires WellFormed(c.body, 0)
  {
    Eval(c.body, c.args, [])
  }

  ghost predicate Formed<V>(cos: seq<Co<V>>) {
    forall i | 0 <= i < |cos| :: WellFormed(cos[i].body, 0)
  }

  ghost predicate InRange<V>(cos: seq<Co<V>>, tasks: seq<nat>) {
    forall j | 0 <= j < |tasks| :: tasks[j] < |cos|
  }

  ghost function Meanings<V>(cos: seq<Co<V>>, tasks: seq<nat>): (r: seq<V>)
    requires Formed(cos) && InRange(cos, tasks)
    ensures |r| == |tasks|
  {
    seq(|tasks|, j requires 0 <= j < |tasks| => Meaning(cos[tasks[j]]))
  }

  /** The locals the rest of the body will see: a suspended await still owes the child's value. */
  ghost function Locals<V>(cos: seq<Co<V>>, c: Co<V>): seq<V>
    requires Formed(cos)
    requires c.status.Suspended? && c.status.awaited.Some? ==> c.status.awaited.value < |cos|
  {
    if c.status.Suspended? && c.status.awaited.Some? then c.locals + [Meaning(cos[c.status.awaited.value])]
    else c.locals
  }

  ghost predicate ShapeOk<V>(cos: seq<Co<V>>, i: nat, c: Co<V>) {
    && WellFormed(c.rest, |c.tasks|)
    && (forall j | 0 <= j < |c.tasks| :: i < c.tasks[j] < |cos|)
    && (c.status.Suspended? ==> c.status.epoch == c.epochs)
    && (c.status.Suspended? && c.status.awaited.Some? ==> i < c.status.awaited.value < |cos|)
    && (c.status.Finished? <==> c.result.Some?)
    && (c.result.Some? ==> c.callbacks == [])
    && (forall j | 0 <= j < |c.callbacks| :: c.callbacks[j].id < i)
  }

  /** What remains to be run means what the whole coroutine means. */
  ghost predicate ValueOk<V>(cos: seq<Co<V>>, c: Co<V>)
    requires Formed(cos) && InRange(cos, c.tasks) && WellFormed(c.rest, |c.tasks|) && WellFormed(c.body, 0)
    requires c.status.Suspended? && c.status.awaited.Some? ==> c.status.awaited.value < |cos|
  {
    match c.result
    case Some(v) => v == Meaning(c)
    case None => Eval(c.rest, Locals(cos, c), Meanings(cos, c.tasks)) == Meaning(c)
  }

  ghost predicate CoOk<V>(cos: seq<Co<V>>, i: nat, c: Co<V>)
    requires Formed(cos)
  {
    WellFormed(c.body, 0) && ShapeOk(cos, i, c) && ValueOk(cos, c)
  }

  /** A coroutine that awaits an unfinished child is registered there. */
  ghost predicate Registered<V>(cos: seq<Co<V>>, i: nat)
    requires i < |cos|
  {
    var st := cos[i].status;
    st.Suspended? && st.awaited.Some? && st.awaited.value < |cos| && cos[st.awaited.value].result.None? ==>
      Token(i, st.epoch) in cos[st.awaited.value].callbacks
  }

  ghost function CallbackCount<V>(t: Token): Co<V> -> int {
    (c: Co<V>) => multiset(c.callbacks)[t]
  }

  /** How often a resume is on its way. */
  ghost function Pending<V>(s: State<V>, t: Token): int {
    s.ready[t] + s.timers[t] + Sum(CallbackCount<V>(t), s.cos)
  }

  ghost predicate IsSuspension<V>(cos: seq<Co<V>>, t: Token) {
    t.id < |cos| && cos[t.id].status.Suspended? && cos[t.id].status.epoch == t.epoch
  }

  /** Exactly the current suspensions have a resume on its way, and exactly one. */
  ghost predicate Accounted<V>(s: State<V>, t: Token) {
    Pending(s, t) == if IsSuspension(s.cos, t) then 1 else 0
  }

  ghost predicate LogOk<V>(s: State<V>) {
    && (forall k | 0 <= k < |s.resumed| :: Spent(s.cos, s.resumed[k]))
    && (forall k, l | 0 <= k < l < |s.resumed| :: s.resumed[k] != s.resumed[l])
  }

  /** A suspension that is over. */
  ghost predicate Spent<V>(cos: seq<Co<V>>, t: Token) {
    t.id < |cos| && t.epoch <= cos[t.id].epochs && (cos[t.id].status.Suspended? ==> t.epoch < cos[t.id].epochs)
  }

  ghost predicate Inv<V>(s: State<V>) {
    && Formed(s.cos)
    && (forall i: nat | i < |s.cos| :: CoOk(s.cos, i, s.cos[i]))
    && (forall i: nat | i < |s.cos| :: Registered(s.cos, i))
    && LogOk(s)
  }

  // ----- Bodies and arguments never change -----

  ghost predicate Extends<V>(cos: seq<Co<V>>, more: seq<Co<V>>) {
    && |cos| <= |more|
    && (forall i | 0 <= i < |cos| :: more[i].body == cos[i].body && more[i].args == cos[i].args)
    && Formed(cos) && Formed(more)
  }

  lemma MeaningsKept<V>(cos: seq<Co<V>>, more: seq<Co<V>>, tasks: seq<nat>)
    requires Extends(cos, more) && InRange(cos, tasks)
    ensures InRange(more, tasks) && Meanings(more, tasks) == Meanings(cos, tasks)
  {
  }

  lemma CoOkKept<V>(cos: seq<Co<V>>, more: seq<Co<V>>, i: nat, c: Co<V>)
    requires Extends(cos, more) && CoOk(cos, i, c)
    ensures CoOk(more, i, c)
  {
    MeaningsKept(cos, more, c.tasks);
    assert Locals(more, c) == Locals(cos, c);
  }

  lemma NewCoOk<V>(cos: seq<Co<V>>, i: nat, body: Prog<V>, args: seq<V>)
    requires Formed(cos) && WellFormed(body, 0)
    ensures CoOk(cos, i, NewCo(body, args))
  {
    assert Meanings(cos, []) == [];
  }

  // ----- One coroutine steps -----

  lemma StepExtends<V>(s: State<V>, step: Step<V>)
    requires Inv(s) && Enabled(s, step)
    ensures Extends(s.cos, Apply(s, step).cos)
  {
    var cos := Apply(s, step).cos;
    forall i | 0 <= i < |s.cos| ensures cos[i].body == s.cos[i].body && cos[i].args == s.cos[i].args {
      BodyKept(s, step, i);
    }
    forall i | 0 <= i < |cos| ensures WellFormed(cos[i].body, 0) {
      if i < |s.cos| { assert WellFormed(s.cos[i].body, 0); }
    }
  }

  lemma BodyKept<V>(s: State<V>, step: Step<V>, i: nat)
    requires Enabled(s, step) && i < |s.cos|
    ensures |s.cos| <= |Apply(s, step).cos|
    ensures Apply(s, step).cos[i].body == s.cos[i].body && Apply(s, step).cos[i].args == s.cos[i].args
  {
    if step.Advance? { AdvanceBodyKept(s, step.id, i); }
  }

  lemma AdvanceBodyKept<V>(s: State<V>, id: nat, i: nat)
    requires Enabled(s, Advance(id)) && i < |s.cos|
    ensures |s.cos| <= |Apply(s, Advance(id)).cos|
    ensures var cos := Apply(s, Advance(id)).cos; cos[i].body == s.cos[i].body && cos[i].args == s.cos[i].args
  {
    hide WellFormed;
    match s.cos[id].rest
    case Return(_) =>
    case Sleep(_, _) =>
    case Call(_, _, _) =>
    case Await(_, _) =>
    case Branch(_, _, _) =>
  }

  lemma AdvanceCallOk<V>(s: State<V>, id: nat)
    requires Inv(s) && Enabled(s, Advance(id)) && s.cos[id].rest.Call?
    ensures Formed(Apply(s, Advance(id)).cos)
    ensures CoOk(Apply(s, Advance(id)).cos, id, Apply(s, Advance(id)).cos[id])
  {
    var c := s.cos[id];
    assert CoOk(s.cos, id, c);
    StepExtends(s, Advance(id));
    var cos := Apply(s, Advance(id)).cos;
    MeaningsKept(s.cos, cos, c.tasks);
    var kid := NewCo(c.rest.child, c.rest.args(c.locals));
    assert cos[|s.cos|] == kid;
    assert Meanings(cos, cos[id].tasks) == Meanings(s.cos, c.tasks) + [Meaning(kid)];
  }

  lemma AdvanceAwaitOk<V>(s: State<V>, id: nat)
    requires Inv(s) && Enabled(s, Advance(id)) && s.cos[id].rest.Await?
    ensures Formed(Apply(s, Advance(id)).cos)
    ensures CoOk(Apply(s, Advance(id)).cos, id, Apply(s, Advance(id)).cos[id])
  {
    var c := s.cos[id];
    assert CoOk(s.cos, id, c);
    StepExtends(s, Advance(id));
    var cos := Apply(s, Advance(id)).cos;
    MeaningsKept(s.cos, cos, c.tasks);
    assert Locals(cos, cos[id]) == c.locals + [Meanings(s.cos, c.tasks)[c.rest.handle]];
  }

  lemma AdvanceAloneOk<V>(s: State<V>, id: nat)
    requires Inv(s) && Enabled(s, Advance(id)) && !s.cos[id].rest.Await? && !s.cos[id].rest.Call?
    ensures Formed(Apply(s, Advance(id)).cos)
    ensures CoOk(Apply(s, Advance(id)).cos, id, Apply(s, Advance(id)).cos[id])
  {
    var c := s.cos[id];
    assert CoOk(s.cos, id, c);
    StepExtends(s, Advance(id));
    MeaningsKept(s.cos, Apply(s, Advance(id)).cos, c.tasks);
  }

  lemma ResumedOk<V>(s: State<V>, token: Token)
    requires Inv(s) && Enabled(s, Resume(token))
    ensures Formed(Apply(s, Resume(token)).cos)
    ensures CoOk(Apply(s, Resume(token)).cos, token.id, Apply(s, Resume(token)).cos[token.id])
  {
    var c := s.cos[token.id];
    assert CoOk(s.cos, token.id, c);
    StepExtends(s, Resume(token));
    var cos := Apply(s, Resume(token)).cos;
    MeaningsKept(s.cos, cos, c.tasks);
    if c.status.awaited.Some? {
      assert CoOk(s.cos, c.status.awaited.value, s.cos[c.status.awaited.value]);
      assert Locals(cos, cos[token.id]) == Locals(s.cos, c);
    }
  }

  /** The coroutine a step is about. */
  lemma StepActor<V>(s: State<V>, step: Step<V>, i: nat)
    requires Inv(s) && Enabled(s, step) && i < |s.cos|
    requires step == Advance(i) || (step.Resume? && step.token.id == i)
    ensures Formed(Apply(s, step).cos) && CoOk(Apply(s, step).cos, i, Apply(s, step).cos[i])
  {
    if step.Resume? { ResumedOk(s, step.token); }
    else if s.cos[i].rest.Call? { AdvanceCallOk(s, i); }
    else if s.cos[i].rest.Await? { AdvanceAwaitOk(s, i); }
    else { AdvanceAloneOk(s, i); }
  }

  /** Any other coroutine stays as it is or gets one more callback. */
  lemma StepOther<V>(s: State<V>, step: Step<V>, i: nat)
    requires Inv(s) && Enabled(s, step) && i < |s.cos|
    requires step != Advance(i) && (step.Resume? ==> step.token.id != i)
    ensures Formed(Apply(s, step).cos) && CoOk(Apply(s, step).cos, i, Apply(s, step).cos[i])
  {
    StepExtends(s, step);
    var cos := Apply(s, step).cos;
    assert CoOk(s.cos, i, s.cos[i]);
    CoOkKept(s.cos, cos, i, s.cos[i]);
    if cos[i] != s.cos[i] {
      OtherChange(s, step, i);
      hide Apply, Eval, WellFormed;
      assert CoOk(s.cos, step.id, s.cos[step.id]);
      OneMoreCallback(cos, i, s.cos[i], Token(step.id, s.cos[step.id].epochs + 1));
    }
  }

  lemma OtherChange<V>(s: State<V>, step: Step<V>, i: nat)
    requires Enabled(s, step) && i < |s.cos| <= |Apply(s, step).cos|
    requires step != Advance(i) && (step.Resume? ==> step.token.id != i)
    requires Apply(s, step).cos[i] != s.cos[i]
    ensures step.Advance? && s.cos[step.id].rest.Await? && s.cos[i].result.None?
    ensures s.cos[step.id].tasks[s.cos[step.id].rest.handle] == i
    ensures Apply(s, step).cos[i] ==
      s.cos[i].(callbacks := s.cos[i].callbacks + [Token(step.id, s.cos[step.id].epochs + 1)])
  {
  }

  lemma OneMoreCallback<V>(cos: seq<Co<V>>, i: nat, c: Co<V>, t: Token)
    requires Formed(cos) && CoOk(cos, i, c) && t.id < i && c.result.None?
    ensures CoOk(cos, i, c.(callbacks := c.callbacks + [t]))
  {
    var d := c.(callbacks := c.callbacks + [t]);
    assert Meaning(d) == Meaning(c) && Locals(cos, d) == Locals(cos, c);
  }

  lemma StepCo<V>(s: State<V>, step: Step<V>, i: nat)
    requires Inv(s) && Enabled(s, step) && i < |Apply(s, step).cos|
    ensures Formed(Apply(s, step).cos) && CoOk(Apply(s, step).cos, i, Apply(s, step).cos[i])
  {
    StepExtends(s, step);
    if i >= |s.cos| {
      NewCoOk(Apply(s, step).cos, i, Apply(s, step).cos[i].body, Apply(s, step).cos[i].args);
    } else if step == Advance(i) || (step.Resume? && step.token.id == i) {
      StepActor(s, step, i);
    } else {
      StepOther(s, step, i);
    }
  }

  lemma AwaitCallbacks<V>(s: State<V>, id: nat, j: nat)
    requires Enabled(s, Advance(id)) && s.cos[id].rest.Await? && j < |s.cos|
    ensures |Apply(s, Advance(id)).cos| == |s.cos|
    ensures Apply(s, Advance(id)).cos[j].result == s.cos[j].result
    ensures s.cos[j].callbacks <= Apply(s, Advance(id)).cos[j].callbacks
  {
  }

  /** A registered resume stays registered until the task finishes, and a finished task stays finished. */
  lemma StepCallbacks<V>(s: State<V>, step: Step<V>, j: nat, t: Token)
    requires Enabled(s, step) && j < |s.cos| && |s.cos| <= |Apply(s, step).cos|
    requires s.cos[j].status.Finished? <==> s.cos[j].result.Some?
    ensures Apply(s, step).cos[j].result.None? ==> s.cos[j].result.None?
    ensures Apply(s, step).cos[j].result.None? && t in s.cos[j].callbacks ==> t in Apply(s, step).cos[j].callbacks
  {
    if step.Advance? && s.cos[step.id].rest.Await? {
      AwaitCallbacks(s, step.id, j);
    } else if step.Advance? && step.id == j && s.cos[j].rest.Return? {
    } else {
      QuietCallbacks(s, step, j);
    }
  }

  lemma QuietCallbacks<V>(s: State<V>, step: Step<V>, j: nat)
    requires Enabled(s, step) && j < |s.cos| <= |Apply(s, step).cos|
    requires step.Advance? ==> !s.cos[step.id].rest.Await? && (step.id == j ==> !s.cos[j].rest.Return?)
    ensures Apply(s, step).cos[j].result == s.cos[j].result && Apply(s, step).cos[j].callbacks == s.cos[j].callbacks
  {
    if step.Advance? {
      match s.cos[step.id].rest
      case Return(_) =>
      case Sleep(_, _) =>
      case Call(_, _, _) =>
      case Branch(_, _, _) =>
    }
  }

  /** An await registers at the child unless the child is finished. */
  lemma AwaitRegisters<V>(s: State<V>, id: nat)
    requires Enabled(s, Advance(id)) && s.cos[id].rest.Await? && s.cos[id].tasks[s.cos[id].rest.handle] != id
    ensures Registered(Apply(s, Advance(id)).cos, id)
  {
  }

  lemma StatusKept<V>(s: State<V>, step: Step<V>, i: nat)
    requires Enabled(s, step) && i < |s.cos| <= |Apply(s, step).cos|
    requires step != Advance(i) && (step.Resume? ==> step.token.id != i)
    ensures Apply(s, step).cos[i].status == s.cos[i].status
  {
    match step
    case Start(_, _) =>
    case Tick(_) =>
    case Fire(_) =>
    case Resume(_) =>
    case Advance(id) =>
      match s.cos[id].rest
      case Return(_) =>
      case Sleep(_, _) =>
      case Call(_, _, _) =>
      case Await(_, _) =>
      case Branch(_, _, _) =>
  }

  lemma NewRegistered<V>(s: State<V>, step: Step<V>, i: nat)
    requires Enabled(s, step) && |s.cos| <= i < |Apply(s, step).cos|
    ensures Registered(Apply(s, step).cos, i)
  {
    hide WellFormed;
  }

  lemma ResumeRegistered<V>(s: State<V>, token: Token)
    requires Enabled(s, Resume(token))
    ensures token.id < |Apply(s, Resume(token)).cos| && Registered(Apply(s, Resume(token)).cos, token.id)
  {
    hide WellFormed;
  }

  lemma AdvanceRegistered<V>(s: State<V>, id: nat)
    requires Inv(s) && Enabled(s, Advance(id))
    ensures id < |Apply(s, Advance(id)).cos| && Registered(Apply(s, Advance(id)).cos, id)
  {
    if s.cos[id].rest.Await? {
      ChildIsOther(s, id);
      AwaitRegisters(s, id);
    }
    hide WellFormed, Inv;
  }

  lemma StepRegistered<V>(s: State<V>, step: Step<V>, i: nat)
    requires Inv(s) && Enabled(s, step) && i < |Apply(s, step).cos|
    ensures Registered(Apply(s, step).cos, i)
  {
    hide Inv, Apply, Enabled, Registered;
    if i >= |s.cos| {
      NewRegistered(s, step, i);
    } else if step.Resume? && step.token.id == i {
      ResumeRegistered(s, step.token);
    } else if step.Advance? && step.id == i {
      AdvanceRegistered(s, i);
    } else {
      OtherRegistered(s, step, i);
    }
  }

  lemma OtherRegistered<V>(s: State<V>, step: Step<V>, i: nat)
    requires Inv(s) && Enabled(s, step) && i < |s.cos|
    requires step != Advance(i) && (step.Resume? ==> step.token.id != i)
    ensures i < |Apply(s, step).cos| && Registered(Apply(s, step).cos, i)
  {
    hide Apply, WellFormed, Eval, ValueOk;
    StepExtends(s, step);
    assert CoOk(s.cos, i, s.cos[i]) && Registered(s.cos, i);
    StatusKept(s, step, i);
    var st := s.cos[i].status;
    if st.Suspended? && st.awaited.Some? {
      assert CoOk(s.cos, st.awaited.value, s.cos[st.awaited.value]);
      StepCallbacks(s, step, st.awaited.value, Token(i, st.epoch));
    }
  }

  // ----- Every suspension has exactly one resume on its way -----

  lemma AloneSum<V>(f: Co<V> -> int, s: State<V>, id: nat)
    requires Enabled(s, Advance(id)) && !s.cos[id].rest.Await? && !s.cos[id].rest.Call?
    ensures var cos := Apply(s, Advance(id)).cos;
            |cos| == |s.cos| && Sum(f, cos) == Sum(f, s.cos) - f(s.cos[id]) + f(cos[id])
  {
    SumUpdate(f, s.cos, id, Apply(s, Advance(id)).cos[id]);
  }

  lemma CallSum<V>(f: Co<V> -> int, s: State<V>, id: nat)
    requires Enabled(s, Advance(id)) && s.cos[id].rest.Call?
    ensures var cos := Apply(s, Advance(id)).cos;
            |cos| == |s.cos| + 1 && Sum(f, cos) == Sum(f, s.cos) - f(s.cos[id]) + f(cos[id]) + f(cos[|s.cos|])
  {
    var cos := Apply(s, Advance(id)).cos;
    SumUpdate(f, s.cos, id, cos[id]);
    SumPush(f, s.cos[id := cos[id]], cos[|s.cos|]);
  }

  lemma AwaitSum<V>(f: Co<V> -> int, s: State<V>, id: nat, child: nat)
    requires Enabled(s, Advance(id)) && s.cos[id].rest.Await? && child == s.cos[id].tasks[s.cos[id].rest.handle]
               && child != id
    ensures var cos := Apply(s, Advance(id)).cos;
            |cos| == |s.cos|
            && Sum(f, cos) == Sum(f, s.cos) - f(s.cos[id]) + f(cos[id]) - f(s.cos[child]) + f(cos[child])
  {
    var cos := Apply(s, Advance(id)).cos;
    SumUpdate(f, s.cos, id, cos[id]);
    var parked := s.cos[id := cos[id]];
    SumUpdate(f, parked, child, cos[child]);
    assert cos == parked[child := cos[child]];
  }

  /** A task is younger than the coroutine that holds its handle. */
  lemma ChildIsOther<V>(s: State<V>, id: nat)
    requires Inv(s) && Enabled(s, Advance(id)) && s.cos[id].rest.Await?
    ensures s.cos[id].tasks[s.cos[id].rest.handle] > id
  {
    assert CoOk(s.cos, id, s.cos[id]);
  }

  lemma AwaitPending<V>(s: State<V>, id: nat, t: Token)
    requires Enabled(s, Advance(id)) && s.cos[id].rest.Await? && s.cos[id].tasks[s.cos[id].rest.handle] != id
    ensures Pending(Apply(s, Advance(id)), t) == Pending(s, t) + if t == Token(id, s.cos[id].epochs + 1) then 1 else 0
  {
    var child := s.cos[id].tasks[s.cos[id].rest.handle];
    AwaitSum(CallbackCount<V>(t), s, id, child);
    AwaitMoves(s, id, child);
    hide Apply;
  }

  /** The new resume goes to the child, or to an executor if the child is finished. */
  lemma AwaitMoves<V>(s: State<V>, id: nat, child: nat)
    requires Enabled(s, Advance(id)) && s.cos[id].rest.Await?
    requires child == s.cos[id].tasks[s.cos[id].rest.handle] && child != id
    ensures var u, token := Apply(s, Advance(id)), Token(id, s.cos[id].epochs + 1);
            |u.cos| == |s.cos| && u.cos[id].callbacks == s.cos[id].callbacks && u.timers == s.timers
            && u.cos[child].callbacks == s.cos[child].callbacks + (if s.cos[child].result.None? then [token] else [])
            && u.ready == s.ready + if s.cos[child].result.None? then multiset{} else multiset{token}
  {
  }

  /** The suspension a step begins (+1) or ends (-1). */
  ghost function Change<V>(s: State<V>, step: Step<V>, t: Token): int
    requires Enabled(s, step)
  {
    match step
    case Start(_, _) => if t == Token(|s.cos|, 0) then 1 else 0
    case Tick(_) => 0
    case Fire(_) => 0
    case Resume(token) => if t == token then -1 else 0
    case Advance(id) =>
      match s.cos[id].rest
      case Sleep(_, _) => if t == Token(id, s.cos[id].epochs + 1) then 1 else 0
      case Await(_, _) => if t == Token(id, s.cos[id].epochs + 1) then 1 else 0
      case Call(_, _, _) => if t == Token(|s.cos|, 0) then 1 else 0
      case _ => 0
  }

  lemma CallPending<V>(s: State<V>, id: nat, t: Token)
    requires Enabled(s, Advance(id)) && s.cos[id].rest.Call?
    ensures Pending(Apply(s, Advance(id)), t) == Pending(s, t) + if t == Token(|s.cos|, 0) then 1 else 0
  {
    CallSum(CallbackCount<V>(t), s, id);
    var cos := Apply(s, Advance(id)).cos;
    assert cos[id].callbacks == s.cos[id].callbacks && cos[|s.cos|].callbacks == [];
  }

  /** return_value moves every registered resume to an executor. */
  lemma ReturnPending<V>(s: State<V>, id: nat, t: Token)
    requires Enabled(s, Advance(id)) && s.cos[id].rest.Return?
    ensures Pending(Apply(s, Advance(id)), t) == Pending(s, t)
  {
    AloneSum(CallbackCount<V>(t), s, id);
    var cos := Apply(s, Advance(id)).cos;
    assert cos[id].callbacks == [];
  }

  lemma AlonePending<V>(s: State<V>, id: nat, t: Token)
    requires Enabled(s, Advance(id)) && (s.cos[id].rest.Sleep? || s.cos[id].rest.Branch?)
    ensures Pending(Apply(s, Advance(id)), t) ==
      Pending(s, t) + if s.cos[id].rest.Sleep? && t == Token(id, s.cos[id].epochs + 1) then 1 else 0
  {
    AloneSum(CallbackCount<V>(t), s, id);
    var cos := Apply(s, Advance(id)).cos;
    assert cos[id].callbacks == s.cos[id].callbacks;
  }

  lemma AdvancePending<V>(s: State<V>, id: nat, t: Token)
    requires Enabled(s, Advance(id)) && (s.cos[id].rest.Await? ==> s.cos[id].tasks[s.cos[id].rest.handle] != id)
    ensures Pending(Apply(s, Advance(id)), t) == Pending(s, t) + Change(s, Advance(id), t)
  {
    match s.cos[id].rest
    case Await(_, _) => AwaitPending(s, id, t);
    case Call(_, _, _) => CallPending(s, id, t);
    case Return(_) => ReturnPending(s, id, t);
    case Sleep(_, _) => AlonePending(s, id, t);
    case Branch(_, _, _) => AlonePending(s, id, t);
  }

  lemma StepPending<V>(s: State<V>, step: Step<V>, t: Token)
    requires Inv(s) && Enabled(s, step)
    ensures Pending(Apply(s, step), t) == Pending(s, t) + Change(s, step, t)
  {
    hide Inv, WellFormed;
    match step
    case Start(body, args) => SumPush(CallbackCount<V>(t), s.cos, NewCo(body, args));
    case Tick(_) =>
    case Fire(_) =>
    case Resume(token) => SumUpdate(CallbackCount<V>(t), s.cos, token.id, Resumed(s, token.id));
    case Advance(id) =>
      if s.cos[id].rest.Await? { ChildIsOther(s, id); }
      AdvancePending(s, id, t);
  }

  /** Other coroutines keep their status; the actor's changes as `Change` says. */
  lemma StepSuspension<V>(s: State<V>, step: Step<V>, t: Token)
    requires Inv(s) && Enabled(s, step)
    requires step.Resume? ==> IsSuspension(s.cos, step.token)
    ensures (if IsSuspension(Apply(s, step).cos, t) then 1 else 0)
              == (if IsSuspension(s.cos, t) then 1 else 0) + Change(s, step, t)
  {
    StepExtends(s, step);
    if t.id < |s.cos| && step != Advance(t.id) && (step.Resume? ==> step.token.id != t.id) {
      StatusKept(s, step, t.id);
    } else if t.id < |s.cos| && step.Advance? {
      AdvanceSuspension(s, t);
    }
  }

  lemma AdvanceSuspension<V>(s: State<V>, t: Token)
    requires Inv(s) && Enabled(s, Advance(t.id))
    ensures (if IsSuspension(Apply(s, Advance(t.id)).cos, t) then 1 else 0) == Change(s, Advance(t.id), t)
  {
    assert CoOk(s.cos, t.id, s.cos[t.id]);
    match s.cos[t.id].rest
    case Return(_) =>
    case Sleep(_, _) =>
    case Call(_, _, _) =>
    case Await(_, _) =>
    case Branch(_, _, _) =>
  }

  lemma PendingNonNegative<V>(s: State<V>, t: Token)
    ensures Pending(s, t) >= s.ready[t] + s.timers[t]
    ensures forall i | 0 <= i < |s.cos| :: t in s.cos[i].callbacks ==> Pending(s, t) > s.ready[t] + s.timers[t]
  {
    forall i | 0 <= i < |s.cos|
      ensures CallbackCount<V>(t)(s.cos[i]) >= 0
      ensures t in s.cos[i].callbacks ==> CallbackCount<V>(t)(s.cos[i]) > 0
    {
      if t in s.cos[i].callbacks { assert t in multiset(s.cos[i].callbacks); }
    }
    SumNonNegative(CallbackCount<V>(t), s.cos);
    forall i | 0 <= i < |s.cos| && t in s.cos[i].callbacks ensures Pending(s, t) > s.ready[t] + s.timers[t] {
      assert CallbackCount<V>(t)(s.cos[i]) <= Sum(CallbackCount<V>(t), s.cos);
    }
  }

  lemma ReadyIsSuspended<V>(s: State<V>, t: Token)
    requires Accounted(s, t) && t in s.ready + s.timers
    ensures IsSuspension(s.cos, t)
  {
    PendingNonNegative(s, t);
  }

  lemma StepAccounted<V>(s: State<V>, step: Step<V>, t: Token)
    requires Inv(s) && Enabled(s, step) && Accounted(s, t)
    requires step.Resume? ==> Accounted(s, step.token)
    ensures Accounted(Apply(s, step), t)
  {
    if step.Resume? { ReadyIsSuspended(s, step.token); }
    StepPending(s, step, t);
    StepSuspension(s, step, t);
  }

  // ----- The log of resumes -----

  lemma StepResumed<V>(s: State<V>, step: Step<V>)
    requires Enabled(s, step)
    ensures Apply(s, step).resumed == s.resumed + if step.Resume? then [step.token] else []
  {
    hide WellFormed;
  }

  /** The suspension that a resume ends is over, and was not before. */
  lemma ResumeSpends<V>(s: State<V>, token: Token)
    requires Inv(s) && Enabled(s, Resume(token)) && IsSuspension(s.cos, token)
    ensures Spent(Apply(s, Resume(token)).cos, token) && !Spent(s.cos, token)
  {
    assert CoOk(s.cos, token.id, s.cos[token.id]);
    hide WellFormed, Eval, ValueOk;
  }

  lemma StepLog<V>(s: State<V>, step: Step<V>)
    requires Inv(s) && Enabled(s, step)
    requires step.Resume? ==> IsSuspension(s.cos, step.token)
    ensures LogOk(Apply(s, step))
  {
    var t := Apply(s, step);
    StepResumed(s, step);
    assert LogOk(s);
    if step.Resume? { ResumeSpends(s, step.token); }
    hide Inv, Apply, Enabled, Spent, IsSuspension;
    forall k | 0 <= k < |s.resumed| ensures Spent(t.cos, s.resumed[k]) {
      StepSpent(s, step, s.resumed[k]);
    }
  }

  lemma StepSpent<V>(s: State<V>, step: Step<V>, t: Token)
    requires Enabled(s, step) && Spent(s.cos, t)
    ensures Spent(Apply(s, step).cos, t)
  {
    match step
    case Advance(id) => AdvanceSpent(s, id, t);
    case _ =>
  }

  lemma AdvanceSpent<V>(s: State<V>, id: nat, t: Token)
    requires Enabled(s, Advance(id)) && Spent(s.cos, t)
    ensures Spent(Apply(s, Advance(id)).cos, t)
  {
    match s.cos[id].rest
    case Return(_) =>
    case Sleep(_, _) =>
    case Call(_, _, _) =>
    case Await(_, _) =>
    case Branch(_, _, _) =>
  }

  // ----- Runs -----

  /** Every resume at the scheduler has a time. */
  ghost predicate TimersOk<V>(s: State<V>) {
    forall t | t in s.timers :: t in s.due
  }

  ghost predicate Good<V(!new)>(s: State<V>) {
    Inv(s) && TimersOk(s) && forall t: Token :: Accounted(s, t)
  }

  lemma InitGood<V(!new)>()
    ensures Good(Init<V>())
  {
  }

  lemma StepTimers<V>(s: State<V>, step: Step<V>)
    requires TimersOk(s) && Enabled(s, step)
    ensures TimersOk(Apply(s, step))
  {
    if step.Advance? { AdvanceTimers(s, step.id); }
  }

  lemma AdvanceTimers<V>(s: State<V>, id: nat)
    requires TimersOk(s) && Enabled(s, Advance(id))
    ensures TimersOk(Apply(s, Advance(id)))
  {
    hide WellFormed;
    match s.cos[id].rest
    case Return(_) =>
    case Sleep(_, _) =>
    case Call(_, _, _) =>
    case Await(_, _) =>
    case Branch(_, _, _) =>
  }

  lemma StepInv<V>(s: State<V>, step: Step<V>)
    requires Inv(s) && Enabled(s, step)
    requires step.Resume? ==> IsSuspension(s.cos, step.token)
    ensures Inv(Apply(s, step))
  {
    var t := Apply(s, step);
    StepLog(s, step);
    StepExtends(s, step);
    forall i: nat | i < |t.cos| ensures CoOk(t.cos, i, t.cos[i]) && Registered(t.cos, i) {
      StepCo(s, step, i);
      StepRegistered(s, step, i);
    }
    hide Apply, LogOk, WellFormed;
  }

  lemma StepGood<V(!new)>(s: State<V>, step: Step<V>)
    requires Good(s) && Enabled(s, step)
    ensures Good(Apply(s, step))
  {
    hide Inv, Apply, TimersOk;
    if step.Resume? {
      assert Accounted(s, step.token);
      assert step.token in s.ready;
      ReadyIsSuspended(s, step.token);
    }
    StepInv(s, step);
    StepTimers(s, step);
    forall token: Token ensures Accounted(Apply(s, step), token) { StepAccounted(s, step, token); }
  }

  lemma {:induction false} RunGood<V(!new)>(s: State<V>, steps: seq<Step<V>>)
    requires Good(s) && CanRun(s, steps)
    ensures Good(Run(s, steps))
    decreases steps
  {
    if steps != [] {
      StepGood(s, steps[0]);
      RunGood(Apply(s, steps[0]), steps[1..]);
    }
  }

  ghost predicate Reached<V>(steps: seq<Step<V>>, s: State<V>) {
    CanRun(Init<V>(), steps) && s == Run(Init<V>(), steps)
  }

  // ----- Main results -----

  /** Asynchronous runs refine direct style: whatever result is stored is the one of the direct evaluation. */
  lemma AsyncRefinesDirect<V(!new)>(steps: seq<Step<V>>, s: State<V>, i: nat)
    requires Reached(steps, s) && i < |s.cos| && s.cos[i].result.Some?
    ensures WellFormed(s.cos[i].body, 0) && s.cos[i].result.value == Eval(s.cos[i].body, s.cos[i].args, [])
  {
    InitGood<V>();
    RunGood(Init<V>(), steps);
    assert CoOk(s.cos, i, s.cos[i]);
  }

  /** Each suspension is resumed at most once, and one that is not yet resumed has exactly one resume on its way. */
  lemma ResumedAtMostOnce<V(!new)>(steps: seq<Step<V>>, s: State<V>)
    requires Reached(steps, s)
    ensures forall k, l | 0 <= k < l < |s.resumed| :: s.resumed[k] != s.resumed[l]
    ensures forall k | 0 <= k < |s.resumed| :: !IsSuspension(s.cos, s.resumed[k])
    ensures forall t: Token :: Pending(s, t) == if IsSuspension(s.cos, t) then 1 else 0
  {
    InitGood<V>();
    RunGood(Init<V>(), steps);
    forall k | 0 <= k < |s.resumed| ensures !IsSuspension(s.cos, s.resumed[k]) {
      var t := s.resumed[k];
      assert Spent(s.cos, t);
      assert CoOk(s.cos, t.id, s.cos[t.id]);
    }
    forall t: Token ensures Pending(s, t) == if IsSuspension(s.cos, t) then 1 else 0 { assert Accounted(s, t); }
  }

  /** await_resume never blocks: a resume handed to an executor finds the awaited result stored. */
  lemma ReadyResumesRun<V(!new)>(s: State<V>, token: Token)
    requires Good(s) && token in s.ready
    ensures Enabled(s, Resume(token))
  {
    assert Accounted(s, token);
    ReadyIsSuspended(s, token);
    var c := s.cos[token.id];
    assert CoOk(s.cos, token.id, c);
    if c.status.awaited.Some? && s.cos[c.status.awaited.value].result.None? {
      assert Registered(s.cos, token.id);
      PendingNonNegative(s, token);
    }
  }

  /** The youngest unfinished coroutine is not waiting for another one, at most for its time. */
  lemma YoungestMoves<V(!new)>(s: State<V>, i: nat) returns (wait: nat, step: Step<V>)
    requires Good(s) && i < |s.cos| && s.cos[i].result.None?
    requires forall j | i < j < |s.cos| :: s.cos[j].result.Some?
    ensures Enabled(Apply(s, Tick(wait)), step) && !step.Start? && !step.Tick? && (wait > 0 ==> step.Fire?)
  {
    var c := s.cos[i];
    assert CoOk(s.cos, i, c);
    wait := 0;
    if c.status.Active? {
      step := Advance(i);
    } else {
      var token := Token(i, c.status.epoch);
      assert Accounted(s, token);
      if token in s.ready {
        ReadyResumesRun(s, token);
        step := Resume(token);
      } else if token in s.timers {
        step := Fire(token);
        if s.due[token] > s.now { wait := s.due[token] - s.now; }
      } else {
        NotParked(s, i, token);
        assert false;
      }
    }
  }

  lemma NotParked<V(!new)>(s: State<V>, i: nat, token: Token)
    requires Good(s) && i < |s.cos| && token.id == i
    requires forall j | i < j < |s.cos| :: s.cos[j].result.Some?
    ensures Pending(s, token) == s.ready[token] + s.timers[token]
  {
    forall j: nat | j < |s.cos| ensures CallbackCount<V>(token)(s.cos[j]) == 0 {
      assert CoOk(s.cos, j, s.cos[j]);
      assert token !in s.cos[j].callbacks;
    }
    SumZeros(CallbackCount<V>(token), s.cos);
  }

  /**
   While some task is unfinished, a coroutine is active, a resume is queued, or a timer is set, and that step
   can be made, the last one as soon as its time has come.
   */
  lemma UnfinishedMoves<V(!new)>(steps: seq<Step<V>>, s: State<V>, i: nat) returns (wait: nat, step: Step<V>)
    requires Reached(steps, s) && i < |s.cos| && s.cos[i].result.None?
    ensures Enabled(Apply(s, Tick(wait)), step) && !step.Start? && !step.Tick? && (wait > 0 ==> step.Fire?)
  {
    InitGood<V>();
    RunGood(Init<V>(), steps);
    var j := i;
    while exists k :: j < k < |s.cos| && s.cos[k].result.None?
      invariant j < |s.cos| && s.cos[j].result.None?
      decreases |s.cos| - j
    {
      var k :| j < k < |s.cos| && s.cos[k].result.None?;
      j := k;
    }
    wait, step := YoungestMoves(s, j);
  }

  // ----- Termination -----

  /** A bound on the steps a body takes, counting the hand-offs of its suspensions and the tasks it creates. */
  ghost function Size<V>(p: Prog<V>): nat {
    match p
    case Return(_) => 1
    case Sleep(_, next) => 3 + Size(next)
    case Call(child, _, next) => 2 + Size(child) + Size(next)
    case Await(_, next) => 2 + Size(next)
    case Branch(_, yes, no) => 1 + if Size(yes) < Size(no) then Size(no) else Size(yes)
  }

  ghost function CoWork<V>(): Co<V> -> int {
    (c: Co<V>) => (if c.result.None? then Size(c.rest) else 0) + |c.callbacks|
  }

  ghost function Work<V>(s: State<V>): int {
    Sum(CoWork<V>(), s.cos) + |s.ready| + 2 * |s.timers|
  }

  lemma AwaitWork<V>(s: State<V>, id: nat)
    requires Enabled(s, Advance(id)) && s.cos[id].result.None? && s.cos[id].rest.Await?
    requires s.cos[id].tasks[s.cos[id].rest.handle] != id
    ensures Work(Apply(s, Advance(id))) < Work(s)
  {
    var child := s.cos[id].tasks[s.cos[id].rest.handle];
    AwaitSum(CoWork<V>(), s, id, child);
    var t := Apply(s, Advance(id));
    assert CoWork<V>()(t.cos[child]) + |t.ready| == CoWork<V>()(s.cos[child]) + |s.ready| + 1;
  }

  lemma AdvanceWork<V>(s: State<V>, id: nat)
    requires Enabled(s, Advance(id)) && s.cos[id].result.None?
    requires s.cos[id].rest.Await? ==> s.cos[id].tasks[s.cos[id].rest.handle] != id
    ensures Work(Apply(s, Advance(id))) < Work(s)
  {
    match s.cos[id].rest
    case Await(_, _) => AwaitWork(s, id);
    case Call(_, _, _) => CallSum(CoWork<V>(), s, id);
    case Return(_) => AloneSum(CoWork<V>(), s, id);
    case Sleep(_, _) => AloneSum(CoWork<V>(), s, id);
    case Branch(_, _, _) => AloneSum(CoWork<V>(), s, id);
  }

  /** Every step but a new start uses up work. */
  lemma StepWork<V>(s: State<V>, step: Step<V>)
    requires Inv(s) && Enabled(s, step)
    ensures step.Start? ==> Work(Apply(s, step)) == Work(s) + Size(step.body) + 1
    ensures step.Tick? ==> Work(Apply(s, step)) == Work(s)
    ensures !step.Start? && !step.Tick? ==> Work(Apply(s, step)) < Work(s)
  {
    match step
    case Start(body, args) => SumPush(CoWork<V>(), s.cos, NewCo(body, args));
    case Tick(_) =>
    case Fire(_) =>
    case Resume(token) => SumUpdate(CoWork<V>(), s.cos, token.id, Resumed(s, token.id));
    case Advance(id) =>
      assert CoOk(s.cos, id, s.cos[id]);
      if s.cos[id].rest.Await? { ChildIsOther(s, id); }
      AdvanceWork(s, id);
  }

  lemma WorkNonNegative<V>(s: State<V>)
    ensures Work(s) >= 0
  {
    SumNonNegative(CoWork<V>(), s.cos);
  }

  ghost function InnerSteps<V>(steps: seq<Step<V>>): nat {
    if steps == [] then 0 else (if steps[0].Start? || steps[0].Tick? then 0 else 1) + InnerSteps(steps[1..])
  }

  ghost function Granted<V>(steps: seq<Step<V>>): nat {
    if steps == [] then 0 else (if steps[0].Start? then Size(steps[0].body) + 1 else 0) + Granted(steps[1..])
  }

  lemma {:induction false} RunWork<V(!new)>(s: State<V>, steps: seq<Step<V>>)
    requires Good(s) && CanRun(s, steps)
    ensures Work(Run(s, steps)) + InnerSteps(steps) <= Work(s) + Granted(steps)
    decreases steps
  {
    if steps != [] {
      StepWork(s, steps[0]);
      StepGood(s, steps[0]);
      RunWork(Apply(s, steps[0]), steps[1..]);
    }
  }

  /** No schedule runs for ever: its steps are bounded by the sizes of the bodies started. */
  lemma EveryScheduleEnds<V(!new)>(steps: seq<Step<V>>, s: State<V>)
    requires Reached(steps, s)
    ensures InnerSteps(steps) <= Granted(steps)
  {
    InitGood<V>();
    RunWork(Init<V>(), steps);
    WorkNonNegative(s);
  }
}

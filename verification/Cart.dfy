/** The storefront cart (apps/storefront/lib/cart-context.tsx): queued mutations whose responses replace
    the displayed cart, an initial fetch that is not queued, and a server that is the source of truth. */
module Cart {
  import opened Options
  import opened MutationQueue

  type Item = nat
  type Lines = map<Item, nat>

  datatype Mutation = Add(item: Item, qty: nat) | Update(item: Item, qty: nat) | Remove(item: Item) | Refetch

  /** The server's handling of one request: the new cart, or a refusal that changes nothing. */
  function Serve(cart: Lines, m: Mutation): Option<Lines> {
    match m
    case Add(item, qty) => Some(cart[item := (if item in cart then cart[item] else 0) + qty])
    case Update(item, qty) => if item in cart then Some(cart[item := qty]) else None
    case Remove(item) => if item in cart then Some(cart - {item}) else None
    case Refetch => Some(cart)
  }

  function Quantity(cart: Lines, item: Item): nat { if item in cart then cart[item] else 0 }

  /** Only a change of an item the cart does not have is refused; what is answered has the item's new quantity
      and every other item as it was. */
  lemma ServedQuantities(cart: Lines, m: Mutation)
    ensures Serve(cart, m).None? <==> (m.Update? || m.Remove?) && m.item !in cart
    ensures m.Refetch? ==> Serve(cart, m) == Some(cart)
    ensures Serve(cart, m).Some? && !m.Refetch? ==>
      var now := Serve(cart, m).value;
      && now.Keys == (if m.Remove? then cart.Keys - {m.item} else cart.Keys + {m.item})
      && (forall i :: i != m.item ==> Quantity(now, i) == Quantity(cart, i))
      && Quantity(now, m.item)
         == (if m.Add? then Quantity(cart, m.item) + m.qty else if m.Update? then m.qty else 0)
  {
  }

  /** A request on the wire: sent, or handled with an answer on its way back. */
  datatype Wire = Unsent | Sent | Answered(answer: Option<Lines>)
  datatype Job = Job(mutation: Mutation, wire: Wire)

  datatype Fetch = FetchSent | FetchAnswered(cart: Lines) | FetchOver

  datatype Page = Page(server: Lines, display: Option<Lines>, tasks: seq<Task>, jobs: seq<Job>, initial: Fetch)

  datatype Step =
    | Mutate(mutation: Mutation)
    | Send(i: nat)
    | Handle(i: nat)
    | Land(i: nat)
    | Lose(i: nat)
    | Release(i: nat)
    | FetchHandle
    | FetchLand
    | FetchLose
    | ClearCart

  function Opened(server: Lines): Page { Page(server, None, [], [], FetchSent) }

  /** One event. With `queued` false every request is sent as soon as it is asked for, as it would be
      without the queue. */
  function Next(p: Page, step: Step, queued: bool): Page {
    match step
    case Mutate(m) => p.(tasks := Enqueued(p.tasks), jobs := p.jobs + [Job(m, Unsent)])
    case Send(i) =>
      if i < |p.tasks| == |p.jobs| && p.tasks[i].state == Waiting && (queued ==> Startable(p.tasks, i))
      then p.(tasks := WithState(p.tasks, i, Running), jobs := p.jobs[i := p.jobs[i].(wire := Sent)]) else p
    case Handle(i) =>
      if i < |p.jobs| && p.jobs[i].wire == Sent then
        var answer := Serve(p.server, p.jobs[i].mutation);
        p.(server := if answer.Some? then answer.value else p.server,
           jobs := p.jobs[i := p.jobs[i].(wire := Answered(answer))])
      else p
    case Land(i) =>
      if i < |p.jobs| == |p.tasks| && p.jobs[i].wire.Answered? then
        var answer := p.jobs[i].wire.answer;
        p.(display := if answer.Some? then answer else p.display,
           tasks := WithState(p.tasks, i, Done(answer.Some?)), jobs := p.jobs[i := p.jobs[i].(wire := Unsent)])
      else p
    case Lose(i) =>
      if i < |p.jobs| == |p.tasks| && p.jobs[i].wire != Unsent
      then p.(tasks := WithState(p.tasks, i, Done(false)), jobs := p.jobs[i := p.jobs[i].(wire := Unsent)]) else p
    case Release(i) => if i < |p.tasks| && p.tasks[i].state.Done? then p.(tasks := WithTailSettled(p.tasks, i)) else p
    case FetchHandle => if p.initial == FetchSent then p.(initial := FetchAnswered(p.server)) else p
    case FetchLand => if p.initial.FetchAnswered? then p.(display := Some(p.initial.cart), initial := FetchOver) else p
    case FetchLose => p.(initial := FetchOver)
    case ClearCart => p.(display := Some(map[]))
  }

  function Run(p: Page, steps: seq<Step>, queued: bool): Page
    decreases |steps|
  {
    if steps == [] then p else Run(Next(p, steps[0], queued), steps[1..], queued)
  }

  /** No mutation is waiting or on its way. */
  predicate Quiescent(p: Page) { forall i :: 0 <= i < |p.tasks| ==> p.tasks[i].state.Done? }

  /** The events the queue cannot protect against: an answer lost after the server acted on it, the
      initial fetch landing with a cart the server has since left behind, and the cart cleared on the
      page only. */
  predicate Spoils(p: Page, step: Step) {
    match step
    case Lose(i) => i < |p.jobs| && p.jobs[i].wire.Answered? && p.jobs[i].wire.answer.Some?
    case FetchLand => p.initial.FetchAnswered? && p.initial.cart != p.server
    case ClearCart => true
    case _ => false
  }

  predicate Unspoiled(p: Page, steps: seq<Step>, queued: bool)
    decreases |steps|
  {
    steps == [] || (!Spoils(p, steps[0]) && Unspoiled(Next(p, steps[0], queued), steps[1..], queued))
  }

  predicate Accepted(p: Page, i: nat) { i < |p.jobs| && p.jobs[i].wire.Answered? && p.jobs[i].wire.answer.Some? }

  /** What every event keeps, spoiling ones included: one request on the wire at a time, so an accepted
      answer on its way is the server's cart. */
  ghost predicate WireInv(p: Page) {
    && Chained(p.tasks) && |p.jobs| == |p.tasks|
    && (forall i :: 0 <= i < |p.jobs| && p.jobs[i].wire != Unsent ==> p.tasks[i].state == Running)
    && (forall i: nat :: Accepted(p, i) ==> p.jobs[i].wire.answer == Some(p.server))
  }

  /** A shown cart is the server's unless an accepted answer is still on its way. */
  ghost predicate Agrees(p: Page) {
    p.display.Some? && (forall i: nat :: !Accepted(p, i)) ==> p.display == Some(p.server)
  }

  ghost predicate Inv(p: Page) { WireInv(p) && Agrees(p) }

  lemma OneOnTheWire(p: Page, i: nat, j: nat)
    requires WireInv(p) && i < |p.jobs| && j < |p.jobs| && p.jobs[i].wire != Unsent && p.jobs[j].wire != Unsent
    ensures i == j
  {
    AtMostOneRunning(p.tasks, i, j);
  }

  lemma HandleStep(p: Page, i: nat)
    requires WireInv(p) && i < |p.jobs| && p.jobs[i].wire == Sent
    ensures WireInv(Next(p, Handle(i), true)) && (Agrees(p) ==> Agrees(Next(p, Handle(i), true)))
  {
    var t := Next(p, Handle(i), true);
    forall j: nat | j < |p.jobs| && p.jobs[j].wire != Unsent ensures j == i {
      OneOnTheWire(p, i, j);
    }
    assert forall j: nat :: !Accepted(p, j);
    forall j: nat ensures Accepted(t, j) <==> j == i && Serve(p.server, p.jobs[i].mutation).Some? {
    }
    assert Accepted(t, i) || t.server == p.server;
  }

  /** An answer lands or is lost; an accepted one that lands restores agreement, whatever was shown. */
  lemma LandStep(p: Page, i: nat, step: Step)
    requires WireInv(p) && i < |p.jobs| && p.jobs[i].wire != Unsent
    requires step == Lose(i) || (step == Land(i) && p.jobs[i].wire.Answered?)
    ensures WireInv(Next(p, step, true))
    ensures Agrees(p) && !Spoils(p, step) ==> Agrees(Next(p, step, true))
    ensures step == Land(i) && Accepted(p, i) ==> Agrees(Next(p, step, true))
  {
    var t := Next(p, step, true);
    forall j: nat | j < |p.jobs| && p.jobs[j].wire != Unsent ensures j == i {
      OneOnTheWire(p, i, j);
    }
    forall j: nat ensures !Accepted(t, j) && (Accepted(p, j) ==> j == i) {
    }
  }

  /** Steps that neither touch the server nor the wire keep the queue's chain and every answer. */
  lemma QueueStep(p: Page, step: Step)
    requires WireInv(p) && (step.Mutate? || step.Send? || step.Release?)
    ensures WireInv(Next(p, step, true)) && (Agrees(p) ==> Agrees(Next(p, step, true)))
  {
    var t := Next(p, step, true);
    forall i: nat ensures Accepted(t, i) <==> Accepted(p, i) {
    }
  }

  lemma PageStep(p: Page, step: Step)
    requires WireInv(p) && (step.FetchHandle? || step.FetchLand? || step.FetchLose? || step.ClearCart?)
    ensures WireInv(Next(p, step, true)) && (Agrees(p) && !Spoils(p, step) ==> Agrees(Next(p, step, true)))
  {
    var t := Next(p, step, true);
    forall i: nat ensures Accepted(t, i) <==> Accepted(p, i) {
    }
  }

  lemma StepKeeps(p: Page, step: Step)
    requires WireInv(p)
    ensures WireInv(Next(p, step, true)) && (Agrees(p) && !Spoils(p, step) ==> Agrees(Next(p, step, true)))
  {
    hide WireInv, Agrees;
    match step
    case Handle(i) => if i < |p.jobs| && p.jobs[i].wire == Sent { HandleStep(p, i); }
    case Land(i) => if i < |p.jobs| == |p.tasks| && p.jobs[i].wire.Answered? { LandStep(p, i, step); }
    case Lose(i) => if i < |p.jobs| == |p.tasks| && p.jobs[i].wire != Unsent { LandStep(p, i, step); }
    case Mutate(_) => QueueStep(p, step);
    case Send(_) => QueueStep(p, step);
    case Release(_) => QueueStep(p, step);
    case _ => PageStep(p, step);
  }

  lemma {:induction false} RunKeepsWire(p: Page, steps: seq<Step>)
    requires WireInv(p)
    ensures WireInv(Run(p, steps, true))
    decreases |steps|
  {
    hide WireInv, Next;
    if steps != [] {
      StepKeeps(p, steps[0]);
      RunKeepsWire(Next(p, steps[0], true), steps[1..]);
    }
  }

  lemma {:induction false} RunKeepsInv(p: Page, steps: seq<Step>)
    requires Inv(p) && Unspoiled(p, steps, true)
    ensures Inv(Run(p, steps, true))
    decreases |steps|
  {
    if steps != [] {
      StepKeeps(p, steps[0]);
      RunKeepsInv(Next(p, steps[0], true), steps[1..]);
    }
  }

  /** Agreement: over every schedule of requests, answers, refusals and failures that is not spoiled, a
      page that shows a cart with nothing waiting shows the server's. */
  lemma QuiescentAgreement(server: Lines, steps: seq<Step>)
    requires Unspoiled(Opened(server), steps, true) && Quiescent(Run(Opened(server), steps, true))
    ensures var p := Run(Opened(server), steps, true);
      p.display.Some? ==> p.display == Some(p.server)
  {
    RunKeepsInv(Opened(server), steps);
    NothingAccepted(Run(Opened(server), steps, true));
  }

  /** Agreement heals: after any run at all, spoiled or not, the next accepted answer to a queued request
      that lands puts the page back in agreement, which then lasts as long as nothing spoils it again. */
  lemma LandingRestoresAgreement(server: Lines, before: seq<Step>, i: nat, after: seq<Step>)
    requires Accepted(Run(Opened(server), before, true), i)
    requires Unspoiled(Next(Run(Opened(server), before, true), Land(i), true), after, true)
    ensures var p := Run(Next(Run(Opened(server), before, true), Land(i), true), after, true);
      Quiescent(p) ==> p.display == Some(p.server)
  {
    RunKeepsWire(Opened(server), before);
    var s := Run(Opened(server), before, true);
    LandStep(s, i, Land(i));
    RunKeepsInv(Next(s, Land(i), true), after);
    RunKeepsShown(Next(s, Land(i), true), after);
    var p := Run(Next(s, Land(i), true), after, true);
    if Quiescent(p) {
      NothingAccepted(p);
    }
  }

  lemma {:induction false} RunKeepsShown(p: Page, steps: seq<Step>)
    requires p.display.Some?
    ensures Run(p, steps, true).display.Some?
    decreases |steps|
  {
    if steps != [] {
      RunKeepsShown(Next(p, steps[0], true), steps[1..]);
    }
  }

  lemma NothingAccepted(p: Page)
    requires WireInv(p) && Quiescent(p)
    ensures forall i: nat :: !Accepted(p, i)
  {
  }

  /** A page that is opened and hears back from the server shows the server's cart. */
  lemma OpeningShowsCart(server: Lines)
    ensures var answered := Next(Opened(server), FetchHandle, true);
      && Next(answered, FetchHandle, true) == answered
      && Next(answered, FetchLand, true) == Opened(server).(display := Some(server), initial := FetchOver)
      && Next(Opened(server), FetchLand, true) == Opened(server)
  {
  }

  /** A mutation nothing interferes with is served once and shown if it is accepted; one lost on its way to
      the server changes neither cart. Either way it is over, and its task has failed unless it was accepted. */
  lemma MutationRuns(p: Page, m: Mutation)
    requires |p.jobs| == |p.tasks| && (p.tasks != [] ==> p.tasks[|p.tasks| - 1].tailSettled)
    ensures var i, answer := |p.tasks|, Serve(p.server, m);
      var sent := Next(Next(p, Mutate(m), true), Send(i), true);
      var landed, lost := Next(Next(sent, Handle(i), true), Land(i), true), Next(sent, Lose(i), true);
      && |landed.tasks| == |lost.tasks| == i + 1
      && landed.tasks[i].state == Done(answer.Some?) && lost.tasks[i].state == Done(false)
      && landed.server == (if answer.Some? then answer.value else p.server)
      && landed.display == (if answer.Some? then answer else p.display)
      && lost.server == p.server && lost.display == p.display
  {
    hide Serve;
  }

  /** Each spoiling event is a real one: at a quiescent, agreeing page, the initial fetch's answer breaks
      agreement if and only if it is not the server's cart any more, and clearing the page if and only
      if the server's cart is not empty. */
  lemma SpoilersExactly(p: Page)
    requires p.display == Some(p.server)
    ensures Next(p, FetchLand, true).display == Some(p.server) <==> !Spoils(p, FetchLand)
    ensures Next(p, ClearCart, true).display == Some(p.server) <==> p.server == map[]
  {
  }

  /** And so is a lost answer: it breaks agreement exactly when the request changed the cart. */
  lemma LostAnswerExactly(p: Page, i: nat)
    requires Inv(p) && p.display == Some(p.server) && i < |p.jobs| && p.jobs[i].wire == Sent
    ensures var t := Next(Next(p, Handle(i), true), Lose(i), true);
      t.display == Some(t.server) <==> Serve(p.server, p.jobs[i].mutation) in {None, Some(p.server)}
  {
  }

  predicate Disagrees(p: Page) { Quiescent(p) && p.display.Some? && p.display != Some(p.server) }

  lemma RunStep(p: Page, step: Step, rest: seq<Step>, queued: bool)
    requires !Spoils(p, step) && Unspoiled(Next(p, step, queued), rest, queued)
    ensures Unspoiled(p, [step] + rest, queued)
      && Run(p, [step] + rest, queued) == Run(Next(p, step, queued), rest, queued)
  {
    assert ([step] + rest)[1..] == rest;
  }

  /** Both requests on the wire at once. */
  function BothSent(server: Lines, first: Mutation, second: Mutation): Page {
    Page(server, None, [Task(None, Running, false), Task(Some(0), Running, false)],
      [Job(first, Sent), Job(second, Sent)], FetchSent)
  }

  /** The server handles them in order and the answers land in the opposite one. */
  lemma AnswersCross(server: Lines, first: Mutation, second: Mutation) returns (steps: seq<Step>)
    requires var one := Serve(server, first);
      one.Some? && Serve(one.value, second).Some? && Serve(one.value, second) != one
    ensures Unspoiled(BothSent(server, first, second), steps, false)
    ensures Disagrees(Run(BothSent(server, first, second), steps, false))
  {
    hide Serve;
    var p4 := BothSent(server, first, second);
    var p5 := Next(p4, Handle(0), false);
    var p6 := Next(p5, Handle(1), false);
    var p7 := Next(p6, Land(1), false);
    var p8 := Next(p7, Land(0), false);
    assert Disagrees(p8);
    RunStep(p7, Land(0), [], false);
    RunStep(p6, Land(1), [Land(0)] + [], false);
    RunStep(p5, Handle(1), [Land(1)] + ([Land(0)] + []), false);
    steps := [Handle(0)] + ([Handle(1)] + ([Land(1)] + ([Land(0)] + [])));
    RunStep(p4, Handle(0), [Handle(1)] + ([Land(1)] + ([Land(0)] + [])), false);
  }

  /** Without the queue agreement fails: any two mutations of which the second still changes the cart
      can have their answers land in the opposite order. */
  lemma UnqueuedDisagrees(server: Lines, first: Mutation, second: Mutation)
    requires var one := Serve(server, first);
      one.Some? && Serve(one.value, second).Some? && Serve(one.value, second) != one
    ensures exists steps :: Unspoiled(Opened(server), steps, false) && Disagrees(Run(Opened(server), steps, false))
  {
    hide Serve, Disagrees;
    var rest := AnswersCross(server, first, second);
    var p0 := Opened(server);
    var p1 := Next(p0, Mutate(first), false);
    var p2 := Next(p1, Mutate(second), false);
    var p3 := Next(p2, Send(0), false);
    assert Next(p3, Send(1), false) == BothSent(server, first, second);
    RunStep(p3, Send(1), rest, false);
    RunStep(p2, Send(0), [Send(1)] + rest, false);
    RunStep(p1, Mutate(second), [Send(0)] + ([Send(1)] + rest), false);
    RunStep(p0, Mutate(first), [Mutate(second)] + ([Send(0)] + ([Send(1)] + rest)), false);
  }
}

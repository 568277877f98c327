/** The bounded mail queue: senders, the background deliverer and a stopping caller in any interleaving. */
module EmailQueue {
  import opened Common

  datatype Message = Message(to: string, subject: string, html: string, text: string)

  const CAPACITY := 256

  /** The deliverer: waiting for a message or the stop signal, delivering, draining after the signal. */
  datatype Runner = NotStarted | Waiting | Delivering(m: Message, draining: bool) | Draining | Returned

  /** `accepted` and `attempts` are histories; `due` is how many messages were accepted when the stop signal
      was given, `final` how many when the deliverer returned. */
  datatype State = State(
    configured: bool,
    queue: seq<Message>,
    runner: Runner,
    stopping: bool,
    stopped: bool,
    accepted: seq<Message>,
    attempts: seq<Message>,
    due: nat,
    final: nat)

  function Fresh(configured: bool): State { State(configured, [], NotStarted, false, false, [], [], 0, 0) }

  datatype Step =
    | Send(m: Message)
    | Start
    | Close
    | StopReturns
    | Take
    | Deliver
    | SeeStop
    | Return

  predicate Enabled(s: State, step: Step) {
    match step
    case Send(_) => true
    case Start => s.runner.NotStarted?
    case Close => !s.stopping
    case StopReturns => s.stopping && !s.stopped && (s.runner.NotStarted? || s.runner.Returned?)
    case Take => (s.runner.Waiting? || s.runner.Draining?) && s.queue != []
    case Deliver => s.runner.Delivering?
    case SeeStop => s.runner.Waiting? && s.stopping
    case Return => s.runner.Draining? && s.queue == []
  }

  /** Whether a send puts its message into the queue. */
  predicate Accepts(s: State) { s.configured && |s.queue| < CAPACITY }

  function Apply(s: State, step: Step): State
    requires Enabled(s, step)
  {
    match step
    case Send(m) => if Accepts(s) then s.(queue := s.queue + [m], accepted := s.accepted + [m]) else s
    case Start => if s.configured then s.(runner := Waiting) else s
    case Close => s.(stopping := true, due := |s.accepted|)
    case StopReturns => s.(stopped := true)
    case Take => s.(queue := s.queue[1..], runner := Delivering(s.queue[0], s.runner.Draining?))
    case Deliver => s.(attempts := s.attempts + [s.runner.m], runner := if s.runner.draining then Draining else Waiting)
    case SeeStop => s.(runner := Draining)
    case Return => s.(runner := Returned, final := |s.accepted|)
  }

  predicate CanRun(s: State, steps: seq<Step>)
    decreases |steps|
  {
    steps == [] || (Enabled(s, steps[0]) && CanRun(Apply(s, steps[0]), steps[1..]))
  }

  function Run(s: State, steps: seq<Step>): State
    requires CanRun(s, steps)
    decreases |steps|
  {
    if steps == [] then s else Run(Apply(s, steps[0]), steps[1..])
  }

  function InFlight(s: State): seq<Message> { if s.runner.Delivering? then [s.runner.m] else [] }

  /** Nothing accepted is lost or reordered, and the queue never overflows. */
  ghost predicate Faithful(s: State) {
    && |s.queue| <= CAPACITY
    && s.accepted == s.attempts + InFlight(s) + s.queue
    && (!s.configured ==> s.runner.NotStarted? && s.accepted == [])
  }

  /** The deliverer drains only after the signal. */
  ghost predicate DrainsWhenTold(s: State) {
    s.runner.Draining? || s.runner.Returned? || (s.runner.Delivering? && s.runner.draining) ==> s.stopping
  }

  /** It returns when everything has been attempted, everything due included. */
  ghost predicate Accounts(s: State) {
    && (s.runner.Returned? ==> s.due <= s.final && s.final == |s.attempts|)
    && (s.stopping ==> s.due <= |s.accepted|)
  }

  ghost predicate Inv(s: State) { Faithful(s) && DrainsWhenTold(s) && Accounts(s) }

  lemma FaithfulKept(s: State, step: Step)
    requires Faithful(s) && Enabled(s, step)
    ensures Faithful(Apply(s, step))
  {
    if step.Take? {
      assert s.queue == [s.queue[0]] + s.queue[1..];
    }
  }

  lemma DrainsWhenToldKept(s: State, step: Step)
    requires DrainsWhenTold(s) && Enabled(s, step)
    ensures DrainsWhenTold(Apply(s, step))
  {
  }

  lemma AccountsKept(s: State, step: Step)
    requires Faithful(s) && DrainsWhenTold(s) && Accounts(s) && Enabled(s, step)
    ensures Accounts(Apply(s, step))
  {
  }

  lemma StepKeepsInv(s: State, step: Step)
    requires Inv(s) && Enabled(s, step)
    ensures Inv(Apply(s, step))
  {
    FaithfulKept(s, step);
    DrainsWhenToldKept(s, step);
    AccountsKept(s, step);
  }

  lemma {:induction false} RunKeepsInv(s: State, steps: seq<Step>)
    requires Inv(s) && CanRun(s, steps)
    ensures Inv(Run(s, steps))
    decreases |steps|
  {
    if steps != [] {
      StepKeepsInv(s, steps[0]);
      RunKeepsInv(Apply(s, steps[0]), steps[1..]);
    }
  }

  /** In every interleaving: the queue never holds more than 256 messages, deliveries are attempted in the
      order of acceptance without gaps or repeats, and once the deliverer has seen the stop signal through,
      every message accepted before the signal has been attempted. */
  lemma QueueIsFaithful(configured: bool, steps: seq<Step>)
    requires CanRun(Fresh(configured), steps)
    ensures var s := Run(Fresh(configured), steps);
            && |s.queue| <= 256
            && s.attempts <= s.accepted
            && |s.accepted| <= |s.attempts| + 1 + 256
            && (s.runner.Returned? ==> s.due <= |s.attempts| && s.accepted[..s.due] <= s.attempts)
  {
    RunKeepsInv(Fresh(configured), steps);
    var s := Run(Fresh(configured), steps);
    if s.runner.Returned? {
      assert s.accepted[..s.due] == s.attempts[..s.due];
    }
  }

  /** If the sender was started before it was stopped, Stop returns only after all that. */
  lemma StopWaitsForAll(s: State)
    requires Inv(s) && !s.runner.NotStarted? && Enabled(s, StopReturns)
    ensures s.due <= |s.attempts| && s.accepted[..s.due] <= s.attempts
  {
    assert s.accepted[..s.due] == s.attempts[..s.due];
  }

  /** Once the deliverer has returned, exactly the messages accepted by then have been attempted, in order,
      those accepted between the stop signal and the return included; */
  lemma AttemptedIffAcceptedByReturn(configured: bool, steps: seq<Step>, i: nat)
    requires CanRun(Fresh(configured), steps) && Run(Fresh(configured), steps).runner.Returned?
    requires i < |Run(Fresh(configured), steps).accepted|
    ensures var s := Run(Fresh(configured), steps);
            && s.due <= s.final <= |s.accepted| && s.attempts == s.accepted[..s.final]
            && (i < |s.attempts| <==> i < s.final)
  {
    RunKeepsInv(Fresh(configured), steps);
    var s := Run(Fresh(configured), steps);
    assert (s.attempts + InFlight(s) + s.queue)[..s.final] == s.attempts;
  }

  /** and none accepted later ever is. */
  lemma {:induction false} LateMessagesAreLost(s: State, steps: seq<Step>)
    requires s.runner.Returned? && CanRun(s, steps)
    ensures Run(s, steps).runner.Returned? && Run(s, steps).attempts == s.attempts && Run(s, steps).final == s.final
    decreases |steps|
  {
    if steps != [] {
      LateMessagesAreLost(Apply(s, steps[0]), steps[1..]);
    }
  }

  /** Such messages there are: sent after the return, accepted, never attempted. */
  lemma AcceptedButNeverAttempted(m: Message)
    ensures var steps := [Start, Close, SeeStop, Return, Send(m)];
            && CanRun(Fresh(true), steps)
            && var s := Run(Fresh(true), steps); s.accepted == [m] && s.attempts == [] && s.runner.Returned?
  {
    var s1 := Apply(Fresh(true), Start);
    var s2 := Apply(s1, Close);
    var s3 := Apply(s2, SeeStop);
    var s4 := Apply(s3, Return);
    RunStep(s4, Send(m), []);
    RunStep(s3, Return, [Send(m)]);
    RunStep(s2, SeeStop, [Return, Send(m)]);
    RunStep(s1, Close, [SeeStop, Return, Send(m)]);
    RunStep(Fresh(true), Start, [Close, SeeStop, Return, Send(m)]);
    assert [Start] + [Close, SeeStop, Return, Send(m)] == [Start, Close, SeeStop, Return, Send(m)];
  }

  lemma RunStep(s: State, step: Step, rest: seq<Step>)
    requires Enabled(s, step) && CanRun(Apply(s, step), rest)
    ensures CanRun(s, [step] + rest) && Run(s, [step] + rest) == Run(Apply(s, step), rest)
  {
    assert ([step] + rest)[1..] == rest;
  }

  // ---------------------------------------------------------------- stopping terminates

  /** The deliverer's own steps. */
  predicate OfRunner(step: Step) { step.Take? || step.Deliver? || step.SeeStop? || step.Return? }

  function Remaining(s: State): nat {
    2 * |s.queue| + match s.runner
                    case NotStarted => 0
                    case Returned => 0
                    case Waiting => 2
                    case Draining => 1
                    case Delivering(_, draining) => if draining then 2 else 3
  }

  /** After the signal the deliverer is never stuck, and each of its steps brings its return closer; so
      without further sends Stop returns. */
  lemma StopTerminates(s: State, step: Step)
    requires s.stopping && !s.runner.NotStarted? && !s.runner.Returned?
    ensures Enabled(s, Take) || Enabled(s, Deliver) || Enabled(s, SeeStop) || Enabled(s, Return)
    ensures Enabled(s, step) && OfRunner(step) ==> Remaining(Apply(s, step)) < Remaining(s)
  {
  }

  // ---------------------------------------------------------------- the sender's own code

  class EmailSender {
    const configured: bool
    var queue: seq<Message>
    ghost var accepted: seq<Message>
    ghost var attempts: seq<Message>

    ghost predicate Valid()
      reads this
    {
      |queue| <= CAPACITY && accepted == attempts + queue
    }

    constructor (configured: bool)
      ensures this.configured == configured && Valid() && accepted == []
    {
      this.configured := configured;
      queue, accepted, attempts := [], [], [];
    }

    /** Never blocks: a full queue drops the message and says so. */
    method SendMail(m: Message) returns (ok: bool)
      requires Valid()
      modifies this
      ensures Valid() && attempts == old(attempts)
      ensures ok == (!configured || |old(queue)| < 256)
      ensures accepted == if configured && ok then old(accepted) + [m] else old(accepted)
    {
      if !configured {
        return true;
      }
      if |queue| < CAPACITY {
        queue := queue + [m];
        accepted := accepted + [m];
        return true;
      }
      return false;
    }

    method DeliverOne(m: Message)
      modifies this`attempts
      ensures attempts == old(attempts) + [m]
    {
      attempts := attempts + [m];
    }

    /** The drain after the stop signal, when nobody sends any more. */
    method Drain()
      requires Valid()
      modifies this
      ensures Valid() && queue == [] && accepted == old(accepted) && attempts == accepted
    {
      while queue != []
        invariant Valid() && accepted == old(accepted)
        decreases |queue|
      {
        var m := queue[0];
        assert queue == [m] + queue[1..];
        queue := queue[1..];
        DeliverOne(m);
      }
    }
  }
}

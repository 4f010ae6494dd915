/** internal/app/service.go: the one-token channel that keeps polling sweeps and update staging
    apart. */
module MaintenanceGate {
  import opened Results

  // ----- the gate under interleaving -----

  /** What a goroutine is doing. `Trying` and `Waiting` hold the channel that gate() returned and
      are about to receive from it, for a sweep or for maintenance; `Returning` is about to send. */
  datatype Pc =
    | Idle
    | Trying(channel: nat)
    | Waiting(channel: nat)
    | Sweeping
    | Maintaining
    | Returning(channel: nat)

  /** The channels made so far, with the tokens in each, and the one the service knows. */
  datatype State = State(current: Option<nat>, tokens: seq<nat>, threads: seq<Pc>)

  datatype Action =
    | AskToSweep
    | AskToMaintain
    | Receive
    | GiveUp
    | Cancel
    | Finish
    | Send

  datatype Step = Step(thread: nat, action: Action)

  predicate Possible(s: State, step: Step) {
    step.thread < |s.threads| &&
    var pc := s.threads[step.thread];
    match step.action
    case AskToSweep | AskToMaintain => pc == Idle
    case Receive => (pc.Trying? || pc.Waiting?) && pc.channel < |s.tokens| && s.tokens[pc.channel] > 0
    case GiveUp => pc.Trying? && pc.channel < |s.tokens| && s.tokens[pc.channel] == 0
    case Cancel => pc.Waiting?
    case Finish => pc == Sweeping || pc == Maintaining
    case Send => pc.Returning? && pc.channel < |s.tokens| && s.tokens[pc.channel] == 0
  }

  /** gate(): the known channel, or a new one with one token. */
  function Known(s: State): (State, nat) {
    match s.current
    case Some(c) => (s, c)
    case None => (s.(current := Some(|s.tokens|), tokens := s.tokens + [1]), |s.tokens|)
  }

  function Next(s: State, step: Step): State
    requires Possible(s, step)
  {
    var i, pc := step.thread, s.threads[step.thread];
    var (s', c) := Known(s);
    match step.action
    case AskToSweep => s'.(threads := s.threads[i := Trying(c)])
    case AskToMaintain => s'.(threads := s.threads[i := Waiting(c)])
    case Finish => s'.(threads := s.threads[i := Returning(c)])
    case Receive =>
      s.(tokens := s.tokens[pc.channel := s.tokens[pc.channel] - 1],
         threads := s.threads[i := if pc.Trying? then Sweeping else Maintaining])
    case GiveUp => s.(threads := s.threads[i := Idle])
    case Cancel => s.(threads := s.threads[i := Idle])
    case Send =>
      s.(tokens := s.tokens[pc.channel := s.tokens[pc.channel] + 1], threads := s.threads[i := Idle])
  }

  predicate StepsTo(states: seq<State>, steps: seq<Step>, k: nat)
    requires k < |steps| && |states| == |steps| + 1
  {
    Possible(states[k], steps[k]) && states[k + 1] == Next(states[k], steps[k])
  }

  ghost predicate Starts(s: State) {
    s.current == None && s.tokens == [] && forall i | 0 <= i < |s.threads| :: s.threads[i] == Idle
  }

  ghost predicate Run(states: seq<State>, steps: seq<Step>) {
    && |states| == |steps| + 1 && Starts(states[0])
    && forall k | 0 <= k < |steps| :: StepsTo(states, steps, k)
  }

  // ----- one token -----

  /** A goroutine that has taken the token and not put it back. */
  predicate Holds(pc: Pc) {
    pc == Sweeping || pc == Maintaining || pc.Returning?
  }

  function Holders(threads: seq<Pc>, n: nat): nat
    requires n <= |threads|
  {
    if n == 0 then 0 else Holders(threads, n - 1) + if Holds(threads[n - 1]) then 1 else 0
  }

  lemma {:induction false} HoldersUpdate(threads: seq<Pc>, i: nat, pc: Pc, n: nat)
    requires n <= |threads| && i < |threads|
    ensures Holders(threads[i := pc], n) ==
            Holders(threads, n) + (if i < n && Holds(pc) then 1 else 0) - (if i < n && Holds(threads[i]) then 1 else 0)
  {
    if n == 0 {
    } else {
      HoldersUpdate(threads, i, pc, n - 1);
    }
  }

  lemma {:induction false} HoldersPositive(threads: seq<Pc>, i: nat, n: nat)
    requires i < n <= |threads| && Holds(threads[i])
    ensures Holders(threads, n) >= 1
    ensures forall j | i < j < n && Holds(threads[j]) :: Holders(threads, n) >= 2
  {
    if n - 1 == i {
    } else {
      HoldersPositive(threads, i, n - 1);
    }
  }

  lemma {:induction false} HoldersZero(threads: seq<Pc>, n: nat)
    requires n <= |threads|
    ensures Holders(threads, n) == 0 <==> forall i | 0 <= i < n :: !Holds(threads[i])
  {
    if n == 0 {
    } else {
      HoldersZero(threads, n - 1);
    }
  }

  /** A channel a goroutine has in hand is the only one. */
  predicate RefersTo(pc: Pc, channels: nat) {
    (pc.Trying? || pc.Waiting? || pc.Returning?) ==> pc.channel == 0 && channels == 1
  }

  /** At most one channel is made, and its token is in it or held. */
  ghost predicate Inv(s: State) {
    && |s.tokens| <= 1
    && s.current == (if |s.tokens| == 0 then None else Some(0))
    && (if |s.tokens| == 0 then 0 else s.tokens[0]) + Holders(s.threads, |s.threads|) == |s.tokens|
    && forall i | 0 <= i < |s.threads| :: RefersTo(s.threads[i], |s.tokens|)
  }

  lemma StepKeeps(s: State, step: Step, s': State)
    requires Inv(s) && Possible(s, step) && s' == Next(s, step)
    ensures Inv(s') && |s'.threads| == |s.threads|
  {
    var i := step.thread;
    HoldersUpdate(s.threads, i, s'.threads[i], |s.threads|);
    if Holds(s.threads[i]) {
      HoldersPositive(s.threads, i, |s.threads|);
    }
    assert s'.threads == s.threads[i := s'.threads[i]];
  }

  lemma {:induction false} RunKeeps(states: seq<State>, steps: seq<Step>, n: nat)
    requires Run(states, steps) && n <= |steps|
    ensures Inv(states[n])
  {
    if n == 0 {
      HoldersZero(states[0].threads, |states[0].threads|);
    } else {
      RunKeeps(states, steps, n - 1);
      assert StepsTo(states, steps, n - 1);
      StepKeeps(states[n - 1], steps[n - 1], states[n]);
    }
  }

  /** In every interleaving at most one channel is ever made, and once it is made the tokens in it
      and the goroutines holding one add up to one. So no two goroutines sweep or maintain at the
      same time, and the send that puts the token back never blocks. */
  lemma OneTokenIsConserved(states: seq<State>, steps: seq<Step>, n: nat)
    requires Run(states, steps) && n <= |steps|
    ensures
      var s := states[n];
      && |s.tokens| <= 1
      && (|s.tokens| == 1 ==> s.tokens[0] + Holders(s.threads, |s.threads|) == 1)
      && (forall i, j | 0 <= i < j < |s.threads| && Holds(s.threads[i]) :: !Holds(s.threads[j]))
      && (forall i | 0 <= i < |s.threads| && s.threads[i].Returning? :: Possible(s, Step(i, Send)))
  {
    RunKeeps(states, steps, n);
    var s := states[n];
    forall i | 0 <= i < |s.threads| && Holds(s.threads[i])
      ensures Holders(s.threads, |s.threads|) >= 1
      ensures forall j | i < j < |s.threads| && Holds(s.threads[j]) :: Holders(s.threads, |s.threads|) >= 2
    {
      HoldersPositive(s.threads, i, |s.threads|);
    }
    assert forall i | 0 <= i < |s.threads| :: RefersTo(s.threads[i], |s.tokens|);
  }

  /** A sweep is skipped only while another goroutine holds the token, and a goroutine that has
      the channel in hand can receive from it exactly while none does. */
  lemma SkippedOnlyWhenHeld(states: seq<State>, steps: seq<Step>, n: nat, i: nat)
    requires Run(states, steps) && n <= |steps| && i < |states[n].threads|
    requires states[n].threads[i].Trying? || states[n].threads[i].Waiting?
    ensures
      var s := states[n];
      && (Possible(s, Step(i, Receive)) <==> forall j | 0 <= j < |s.threads| :: !Holds(s.threads[j]))
      && (Possible(s, Step(i, GiveUp)) ==> exists j | 0 <= j < |s.threads| :: j != i && Holds(s.threads[j]))
  {
    RunKeeps(states, steps, n);
    var s := states[n];
    HoldersZero(s.threads, |s.threads|);
    assert RefersTo(s.threads[i], |s.tokens|);
  }

  // ----- the gate as an object -----

  /** A Go channel of capacity one. */
  class Channel {
    var tokens: nat

    constructor ()
      ensures tokens == 1
    {
      tokens := 1;
    }
  }

  /** A channel that is known has been made. */
  predicate Sound(s: State) {
    s.current.Some? ==> s.current.value < |s.tokens|
  }

  /** What trying to begin a sweep comes to: goroutine i asks for the channel, and takes the token or
      gives up. */
  function Tried(s: State, i: nat): State
    requires Sound(s) && i < |s.threads| && s.threads[i] == Idle
  {
    var asked := Next(s, Step(i, AskToSweep));
    if Possible(asked, Step(i, Receive)) then Next(asked, Step(i, Receive)) else Next(asked, Step(i, GiveUp))
  }

  /** What waiting for maintenance comes to, once the wait is over. */
  function Waited(s: State, i: nat, cancelled: bool): State
    requires Sound(s) && i < |s.threads| && s.threads[i] == Idle
    requires !cancelled ==> Possible(Next(s, Step(i, AskToMaintain)), Step(i, Receive))
  {
    Next(Next(s, Step(i, AskToMaintain)), Step(i, if cancelled then Cancel else Receive))
  }

  /** What ending a sweep or maintenance comes to. */
  function Returned(s: State, i: nat): State
    requires Sound(s) && i < |s.threads| && Possible(s, Step(i, Finish))
    requires Possible(Next(s, Step(i, Finish)), Step(i, Send))
  {
    Next(Next(s, Step(i, Finish)), Step(i, Send))
  }

  /** The state in which the one channel, if it is made, holds some tokens. */
  function WithChannel(made: bool, tokens: nat, threads: seq<Pc>): (s: State)
    ensures Sound(s) && s.threads == threads
  {
    if made then State(Some(0), [tokens], threads) else State(None, [], threads)
  }

  lemma TriedComesTo(made: bool, tokens: nat, threads: seq<Pc>, i: nat)
    requires (made || tokens == 1) && i < |threads| && threads[i] == Idle
    ensures Tried(WithChannel(made, tokens, threads), i) ==
            if tokens > 0 then WithChannel(true, tokens - 1, threads[i := Sweeping]) else WithChannel(true, tokens, threads[i := Idle])
  {
    FirstChannel();
  }

  lemma WaitedComesTo(made: bool, tokens: nat, threads: seq<Pc>, i: nat, cancelled: bool)
    requires (made || tokens == 1) && i < |threads| && threads[i] == Idle && (tokens > 0 || cancelled)
    ensures !cancelled ==> Possible(Next(WithChannel(made, tokens, threads), Step(i, AskToMaintain)), Step(i, Receive))
    ensures Waited(WithChannel(made, tokens, threads), i, cancelled) ==
            if cancelled then WithChannel(true, tokens, threads[i := Idle]) else WithChannel(true, tokens - 1, threads[i := Maintaining])
  {
    FirstChannel();
  }

  lemma FirstChannel()
    ensures forall threads :: Known(State(None, [], threads)) == (State(Some(0), [1], threads), 0)
  {
    assert [] + [1] == [1];
  }

  class Service {
    var channel: Channel?

    constructor ()
      ensures channel == null
      ensures forall threads :: View(threads) == State(None, [], threads)
    {
      channel := null;
    }

    /** Tokens to be had: the channel is made, with one token, when it is first asked for. */
    function Tokens(): nat
      reads this, channel
    {
      if channel == null then 1 else channel.tokens
    }

    /** The service among goroutines that are doing this. */
    function View(threads: seq<Pc>): (s: State)
      reads this, channel
      ensures Sound(s) && s.threads == threads
    {
      WithChannel(channel != null, Tokens(), threads)
    }

    /** gate(), which runs under a lock. */
    method Gate() returns (c: Channel)
      modifies this
      ensures channel == c && Tokens() == old(Tokens())
      ensures old(channel) != null ==> c == old(channel)
      ensures old(channel) == null ==> fresh(c)
      ensures forall threads :: Known(old(View(threads))) == (View(threads), 0)
    {
      if channel == null {
        channel := new Channel();
        FirstChannel();
      }
      c := channel;
    }

    /** A sweep starts exactly when it gets the token. */
    method TryBeginPoll() returns (ok: bool)
      modifies this, channel
      ensures ok == (old(Tokens()) > 0)
      ensures Tokens() == if ok then old(Tokens()) - 1 else old(Tokens())
      ensures channel != null && (channel == old(channel) || fresh(channel))
      ensures forall threads: seq<Pc>, i: nat | i < |threads| && threads[i] == Idle ::
                Tried(old(View(threads)), i) == View(threads[i := if ok then Sweeping else Idle])
    {
      forall threads: seq<Pc>, i: nat | i < |threads| && threads[i] == Idle {
        TriedComesTo(channel != null, Tokens(), threads, i);
      }
      var c := Gate();
      if c.tokens > 0 {
        c.tokens := c.tokens - 1;
        return true;
      }
      return false;
    }

    /** The select waits for a token or for the context; `cancelled` tells which it acts on. */
    method BeginMaintenance(cancelled: bool) returns (ok: bool)
      requires Tokens() > 0 || cancelled
      modifies this, channel
      ensures ok == !cancelled
      ensures Tokens() == if ok then old(Tokens()) - 1 else old(Tokens())
      ensures channel != null && (channel == old(channel) || fresh(channel))
      ensures forall threads: seq<Pc>, i: nat | i < |threads| && threads[i] == Idle ::
                && (ok ==> Possible(Next(old(View(threads)), Step(i, AskToMaintain)), Step(i, Receive)))
                && Waited(old(View(threads)), i, cancelled) == View(threads[i := if ok then Maintaining else Idle])
    {
      forall threads: seq<Pc>, i: nat | i < |threads| && threads[i] == Idle {
        WaitedComesTo(channel != null, Tokens(), threads, i, cancelled);
      }
      var c := Gate();
      if cancelled {
        return false;
      }
      c.tokens := c.tokens - 1;
      return true;
    }

    /** endPoll, and the function that releases maintenance. The send would block with a token in
        the channel. */
    method EndPoll()
      requires Tokens() == 0
      modifies this, channel
      ensures Tokens() == 1 && channel == old(channel)
      ensures forall threads: seq<Pc>, i: nat | i < |threads| && (threads[i] == Sweeping || threads[i] == Maintaining) ::
                && Possible(Next(old(View(threads)), Step(i, Finish)), Step(i, Send))
                && Returned(old(View(threads)), i) == View(threads[i := Idle])
    {
      var c := Gate();
      c.tokens := c.tokens + 1;
    }
  }
}

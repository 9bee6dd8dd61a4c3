/**
 Orders and acknowledgments (infra/mqtt/client.go, core/dispatch/manager.go) as atomic steps.

 One goroutine per order publishes, registers a channel, looks it up, waits, removes it and
 updates the shared result.  Acknowledgments for any command arrive at any time, and other
 dispatches use the same registry.  A run is any sequence of steps; a step that is not
 enabled leaves the state as it is, so a statement about all sequences is one about all
 interleavings.
 */
module AckProtocol {
  import opened Fleet

  datatype Command = Command(uuid: string)
  datatype Channel = Channel(address: nat)
  datatype Error = PublishFailed | UnknownCommand | AckTimeout

  // ----- the shared registry

  /** `ackChans`, and the tokens buffered in every channel that was made. */
  datatype Registry = Registry(chans: map<Command, Channel>, tokens: map<Channel, nat>)

  function Tokens(r: Registry, ch: Channel): nat { if ch in r.tokens then r.tokens[ch] else 0 }

  /** SendOrder: a channel of capacity 1 is entered for the command. */
  function Enter(r: Registry, c: Command, ch: Channel): Registry {
    Registry(r.chans[c := ch], r.tokens[ch := 0])
  }

  /** onAck: a send that does not block, dropped when the command is unknown or the channel full. */
  function Deliver(r: Registry, c: Command): Registry {
    if c in r.chans && Tokens(r, r.chans[c]) < 1 then r.(tokens := r.tokens[r.chans[c] := 1]) else r
  }

  function Take(r: Registry, ch: Channel): Registry {
    if Tokens(r, ch) > 0 then r.(tokens := r.tokens[ch := r.tokens[ch] - 1]) else r
  }

  function Remove(r: Registry, c: Command): Registry {
    r.(chans := r.chans - {c})
  }

  /** No two commands share a channel, and no channel holds more than one token. */
  ghost predicate RegistryOk(r: Registry) {
    && (forall c :: c in r.chans ==> r.chans[c] in r.tokens)
    && (forall c, d :: c in r.chans && d in r.chans && r.chans[c] == r.chans[d] ==> c == d)
    && (forall ch :: ch in r.tokens ==> r.tokens[ch] <= 1)
  }

  /** What the registry is for: the registered commands, and whether an acknowledgment waits for each. */
  ghost function Mailboxes(r: Registry): map<Command, bool> {
    map c | c in r.chans :: Tokens(r, r.chans[c]) > 0
  }

  /** Every critical section keeps the registry sound. */
  lemma RegistryOperations(r: Registry, c: Command, ch: Channel)
    requires RegistryOk(r)
    ensures RegistryOk(Deliver(r, c)) && RegistryOk(Take(r, ch)) && RegistryOk(Remove(r, c))
    ensures ch !in r.tokens ==> RegistryOk(Enter(r, c, ch))
  {
  }

  lemma EnterMailbox(r: Registry, c: Command, ch: Channel)
    requires RegistryOk(r) && ch !in r.tokens
    ensures Mailboxes(Enter(r, c, ch)) == Mailboxes(r)[c := false]
  {
  }

  lemma DeliverMailbox(r: Registry, c: Command)
    requires RegistryOk(r)
    ensures Mailboxes(Deliver(r, c)) == if c in r.chans then Mailboxes(r)[c := true] else Mailboxes(r)
  {
  }

  lemma TakeMailbox(r: Registry, c: Command)
    requires RegistryOk(r) && c in r.chans
    ensures Mailboxes(Take(r, r.chans[c])) == Mailboxes(r)[c := false]
  {
  }

  lemma RemoveMailbox(r: Registry, c: Command)
    ensures Mailboxes(Remove(r, c)) == Mailboxes(r) - {c}
  {
  }

  /** Every critical section acts on the mailbox of its own command only. */
  lemma RegistryMailboxes(r: Registry, c: Command, ch: Channel)
    requires RegistryOk(r)
    ensures ch !in r.tokens ==> Mailboxes(Enter(r, c, ch)) == Mailboxes(r)[c := false]
    ensures Mailboxes(Deliver(r, c)) == if c in r.chans then Mailboxes(r)[c := true] else Mailboxes(r)
    ensures Mailboxes(Remove(r, c)) == Mailboxes(r) - {c}
    ensures c in r.chans && r.chans[c] == ch ==> Mailboxes(Take(r, ch)) == Mailboxes(r)[c := false]
  {
    hide RegistryOk, Mailboxes, Enter, Deliver, Take, Remove;
    if ch !in r.tokens {
      EnterMailbox(r, c, ch);
    }
    DeliverMailbox(r, c);
    RemoveMailbox(r, c);
    if c in r.chans {
      TakeMailbox(r, c);
    }
  }

  /** The critical sections of PahoClient. */
  class PahoClient {
    var ackChans: map<Command, Channel>
    var tokens: map<Channel, nat>

    constructor ()
      ensures Valid() && View() == Registry(map[], map[])
    {
      ackChans, tokens := map[], map[];
    }

    ghost function View(): Registry
      reads this
    {
      Registry(ackChans, tokens)
    }

    ghost predicate Valid()
      reads this
    {
      RegistryOk(View())
    }

    /** `ch` is the channel that has just been made, so nobody has it yet. */
    method RegisterCommand(c: Command, ch: Channel)
      requires Valid() && ch !in tokens
      modifies this
      ensures Valid() && View() == Enter(old(View()), c, ch)
      ensures Mailboxes(View()) == old(Mailboxes(View()))[c := false]
    {
      RegistryOperations(View(), c, ch);
      RegistryMailboxes(View(), c, ch);
      tokens := tokens[ch := 0];
      ackChans := ackChans[c := ch];
    }

    method OnAck(c: Command)
      requires Valid()
      modifies this
      ensures Valid() && View() == Deliver(old(View()), c) && ackChans == old(ackChans)
      ensures Mailboxes(View()) == if c in ackChans then old(Mailboxes(View()))[c := true] else old(Mailboxes(View()))
    {
      RegistryOperations(View(), c, Channel(0));
      RegistryMailboxes(View(), c, Channel(0));
      if c in ackChans {
        var ch := ackChans[c];
        if ch !in tokens || tokens[ch] < 1 {
          tokens := tokens[ch := 1];
        }
      }
    }

    /** The channel that is found belongs to this command alone and holds its acknowledgment or nothing. */
    method LookUp(c: Command) returns (ch: Option<Channel>)
      requires Valid()
      ensures ch.Some? <==> c in Mailboxes(View())
      ensures ch.Some? ==> ch.value in tokens && tokens[ch.value] == if Mailboxes(View())[c] then 1 else 0
      ensures ch.Some? ==> forall d :: d in ackChans ==> (ackChans[d] == ch.value <==> d == c)
    {
      ch := if c in ackChans then Some(ackChans[c]) else None;
    }

    /** The first case of the select in WaitForAck, for the channel that LookUp found. */
    method ReceiveToken(ch: Channel) returns (got: bool)
      requires Valid()
      modifies this
      ensures Valid() && View() == Take(old(View()), ch)
      ensures got == (Tokens(old(View()), ch) > 0)
      ensures forall c :: c in ackChans && ackChans[c] == ch ==>
                got == old(Mailboxes(View()))[c] && Mailboxes(View()) == old(Mailboxes(View()))[c := false]
    {
      forall c ensures c in ackChans && ackChans[c] == ch ==> Mailboxes(Take(View(), ch)) == Mailboxes(View())[c := false] {
        RegistryMailboxes(View(), c, ch);
      }
      RegistryOperations(View(), Command(""), ch);
      got := ch in tokens && tokens[ch] > 0;
      if got {
        tokens := tokens[ch := tokens[ch] - 1];
      }
    }

    method RemoveCommand(c: Command)
      requires Valid()
      modifies this
      ensures Valid() && View() == Remove(old(View()), c)
      ensures Mailboxes(View()) == old(Mailboxes(View())) - {c}
    {
      RegistryOperations(View(), c, Channel(0));
      RegistryMailboxes(View(), c, Channel(0));
      ackChans := ackChans - {c};
    }

    /**
     WaitForAck with nobody interfering between its critical sections.  `timerFirst` says that
     the select takes the timer although a token is there.
     */
    method WaitForAck(c: Command, timerFirst: bool) returns (ack: bool, err: Option<Error>)
      requires Valid()
      modifies this
      ensures Valid()
      ensures var boxes := old(Mailboxes(View()));
              && Mailboxes(View()) == boxes - {c}
              && (ack <==> c in boxes && boxes[c] && !timerFirst)
              && err == if c !in boxes then Some(UnknownCommand) else if ack then None else Some(AckTimeout)
    {
      var ch := LookUp(c);
      if ch == None {
        return false, Some(UnknownCommand);
      }
      ack := false;
      if !timerFirst {
        ack := ReceiveToken(ch.value);
      }
      RemoveCommand(c);
      err := if ack then None else Some(AckTimeout);
    }
  }

  // ----- the shared result

  datatype Tally = Tally(errors: map<Id, Error>, acknowledged: map<Id, bool>, ackCount: nat)

  function Record(t: Tally, id: Id, ack: bool, err: Option<Error>): Tally {
    Tally(if err.Some? then t.errors[id := err.value] else t.errors,
          t.acknowledged[id := err.None? && ack],
          if err.None? && ack then t.ackCount + 1 else t.ackCount)
  }

  /** Errors and acknowledgments exclude each other, and the count is that of the acknowledged orders. */
  ghost predicate TallyOk(t: Tally) {
    && t.errors.Keys <= t.acknowledged.Keys
    && (forall v :: v in t.errors ==> !t.acknowledged[v])
    && t.ackCount == |set v | v in t.acknowledged && t.acknowledged[v]|
  }

  lemma RecordOk(t: Tally, id: Id, ack: bool, err: Option<Error>)
    requires TallyOk(t) && id !in t.acknowledged
    ensures TallyOk(Record(t, id, ack, err))
  {
    var t' := Record(t, id, ack, err);
    var before := set v | v in t.acknowledged && t.acknowledged[v];
    var after := set v | v in t'.acknowledged && t'.acknowledged[v];
    assert after == if err.None? && ack then before + {id} else before;
  }

  /** The `update` closure of dispatchAssignments, which runs under a mutex. */
  class DispatchTally {
    var errors: map<Id, Error>
    var acknowledged: map<Id, bool>
    var ackCount: nat

    constructor ()
      ensures Valid() && View() == Tally(map[], map[], 0)
    {
      errors, acknowledged, ackCount := map[], map[], 0;
    }

    ghost function View(): Tally
      reads this
    {
      Tally(errors, acknowledged, ackCount)
    }

    ghost predicate Valid()
      reads this
    {
      TallyOk(View())
    }

    /** Every order has one goroutine, which calls this once. */
    method Update(id: Id, ack: bool, err: Option<Error>)
      requires Valid() && id !in acknowledged
      modifies this
      ensures Valid() && View() == Record(old(View()), id, ack, err)
      ensures acknowledged.Keys == old(acknowledged.Keys) + {id}
      ensures (acknowledged[id] <==> err.None? && ack) && (id in errors <==> err.Some?)
      ensures forall v :: v != id ==> (v in errors <==> v in old(errors)) && (v in errors ==> errors[v] == old(errors)[v])
      ensures forall v :: v in old(acknowledged) ==> acknowledged[v] == old(acknowledged)[v]
    {
      RecordOk(View(), id, ack, err);
      if err.Some? {
        errors := errors[id := err.value];
      }
      acknowledged := acknowledged[id := err.None? && ack];
      if err.None? && ack {
        ackCount := ackCount + 1;
      }
    }
  }

  // ----- states and steps

  /** Where the goroutine of an order stands. */
  datatype Phase =
    | Idle
    | Published(cmd: Command)
    | Registered(cmd: Command)
    | Waiting(cmd: Command, ch: Channel)
    | GotToken(cmd: Command)
    | Expired(cmd: Command)
    | Returned(sent: Option<Command>, ack: bool, err: Option<Error>)
    | Finished(sent: Option<Command>, ack: bool, err: Option<Error>)

  /** `used` are the command identifiers given out so far, `foreign` those of other dispatches. */
  datatype State = State(orders: map<Id, Phase>, reg: Registry, used: set<Command>, foreign: set<Command>, tally: Tally)

  datatype Step =
    | SendFails(v: Id)
    | SendSucceeds(v: Id, c: Command)
    | RegisterOrder(v: Id, ch: Channel)
    | LookUpOrder(v: Id)
    | Ack(c: Command)
    | Receive(v: Id)
    | TimeOut(v: Id)
    | Forget(v: Id)
    | Update(v: Id)
    | OtherRegisters(c: Command, ch: Channel)
    | OtherTakes(c: Command)
    | OtherForgets(c: Command)

  function PhaseOf(s: State, v: Id): Phase { if v in s.orders then s.orders[v] else Idle }

  function To(s: State, v: Id, p: Phase): State { s.(orders := s.orders[v := p]) }

  function Next(s: State, step: Step): State {
    match step
    case SendFails(v) =>
      if v in s.orders && s.orders[v].Idle? then To(s, v, Returned(None, false, Some(PublishFailed))) else s
    case SendSucceeds(v, c) =>
      if v in s.orders && s.orders[v].Idle? && c !in s.used then To(s, v, Published(c)).(used := s.used + {c}) else s
    case RegisterOrder(v, ch) =>
      if v in s.orders && s.orders[v].Published? && ch !in s.reg.tokens then
        To(s, v, Registered(s.orders[v].cmd)).(reg := Enter(s.reg, s.orders[v].cmd, ch))
      else s
    case LookUpOrder(v) =>
      if v in s.orders && s.orders[v].Registered? then
        var c := s.orders[v].cmd;
        To(s, v, if c in s.reg.chans then Waiting(c, s.reg.chans[c]) else Returned(Some(c), false, Some(UnknownCommand)))
      else s
    case Ack(c) => s.(reg := Deliver(s.reg, c))
    case Receive(v) =>
      if v in s.orders && s.orders[v].Waiting? && Tokens(s.reg, s.orders[v].ch) > 0 then
        To(s, v, GotToken(s.orders[v].cmd)).(reg := Take(s.reg, s.orders[v].ch))
      else s
    case TimeOut(v) =>
      if v in s.orders && s.orders[v].Waiting? then To(s, v, Expired(s.orders[v].cmd)) else s
    case Forget(v) =>
      if v in s.orders && s.orders[v].GotToken? then
        To(s, v, Returned(Some(s.orders[v].cmd), true, None)).(reg := Remove(s.reg, s.orders[v].cmd))
      else if v in s.orders && s.orders[v].Expired? then
        To(s, v, Returned(Some(s.orders[v].cmd), false, Some(AckTimeout))).(reg := Remove(s.reg, s.orders[v].cmd))
      else s
    case Update(v) =>
      if v in s.orders && s.orders[v].Returned? then
        var p := s.orders[v];
        To(s, v, Finished(p.sent, p.ack, p.err)).(tally := Record(s.tally, v, p.ack, p.err))
      else s
    case OtherRegisters(c, ch) =>
      if c !in s.used && ch !in s.reg.tokens then
        s.(reg := Enter(s.reg, c, ch), used := s.used + {c}, foreign := s.foreign + {c})
      else s
    case OtherTakes(c) =>
      if c in s.foreign && c in s.reg.chans then s.(reg := Take(s.reg, s.reg.chans[c])) else s
    case OtherForgets(c) =>
      if c in s.foreign then s.(reg := Remove(s.reg, c)) else s
  }

  ghost function Exec(s: State, steps: seq<Step>): State {
    if steps == [] then s else Next(Exec(s, steps[..|steps| - 1]), steps[|steps| - 1])
  }

  // ----- the invariant of the registry

  /** The command an order owns an entry of the registry for. */
  ghost predicate Owns(p: Phase, c: Command) {
    (p.Registered? || p.Waiting? || p.GotToken? || p.Expired?) && p.cmd == c
  }

  ghost predicate Sent(p: Phase, c: Command) {
    p == Published(c) || Owns(p, c) || ((p.Returned? || p.Finished?) && p.sent == Some(c))
  }

  ghost predicate OrdersOk(s: State) {
    && s.foreign <= s.used && s.reg.chans.Keys <= s.used
    && (forall v, c :: v in s.orders && Sent(s.orders[v], c) ==> c in s.used && c !in s.foreign)
    && (forall v, u, c :: v in s.orders && u in s.orders && Sent(s.orders[v], c) && Sent(s.orders[u], c) ==> v == u)
    && (forall v, c :: v in s.orders && Owns(s.orders[v], c) ==> c in s.reg.chans)
    && (forall v :: v in s.orders && s.orders[v].Waiting? ==> s.reg.chans[s.orders[v].cmd] == s.orders[v].ch)
    && (forall c :: c in s.reg.chans ==> c in s.foreign || exists v :: v in s.orders && Owns(s.orders[v], c))
  }

  ghost predicate Inv(s: State) { RegistryOk(s.reg) && OrdersOk(s) }

  /** A dispatch starts with every order idle and nothing recorded; the registry may be in use by others. */
  ghost predicate Init(s: State) {
    && RegistryOk(s.reg) && s.reg.chans.Keys <= s.foreign <= s.used
    && (forall v :: v in s.orders ==> s.orders[v].Idle?)
    && s.tally == Tally(map[], map[], 0)
  }

  ghost function CommandOf(s: State, v: Id): Command {
    var p := PhaseOf(s, v);
    if p.Idle? || p.Returned? || p.Finished? then Command("") else p.cmd
  }

  ghost function ChannelOf(s: State, v: Id): Channel {
    if PhaseOf(s, v).Waiting? then PhaseOf(s, v).ch else Channel(0)
  }

  lemma RegistryStep(s: State, step: Step)
    requires RegistryOk(s.reg)
    ensures RegistryOk(Next(s, step).reg)
  {
    hide RegistryOk, Deliver, Take, Remove, Enter;
    match step
    case RegisterOrder(v, ch) => RegistryOperations(s.reg, CommandOf(s, v), ch);
    case Receive(v) => RegistryOperations(s.reg, CommandOf(s, v), ChannelOf(s, v));
    case Forget(v) => RegistryOperations(s.reg, CommandOf(s, v), Channel(0));
    case Ack(c) => RegistryOperations(s.reg, c, Channel(0));
    case OtherRegisters(c, ch) => RegistryOperations(s.reg, c, ch);
    case OtherTakes(c) => if c in s.reg.chans { RegistryOperations(s.reg, c, s.reg.chans[c]); }
    case OtherForgets(c) => RegistryOperations(s.reg, c, Channel(0));
    case _ =>
  }

  /** A step of one order that keeps its command and its entry. */
  lemma PhaseMoves(s: State, v: Id, p: Phase, reg: Registry, tally: Tally)
    requires Inv(s) && v in s.orders && reg.chans == s.reg.chans
    requires forall c :: (Sent(p, c) <==> Sent(s.orders[v], c)) && (Owns(p, c) <==> Owns(s.orders[v], c))
    requires p.Waiting? ==> p.cmd in s.reg.chans && s.reg.chans[p.cmd] == p.ch
    ensures OrdersOk(To(s, v, p).(reg := reg, tally := tally))
  {
    var t := To(s, v, p).(reg := reg, tally := tally);
    forall c | c in t.reg.chans ensures c in t.foreign || exists u :: u in t.orders && Owns(t.orders[u], c) {
      if c !in s.foreign {
        var u :| u in s.orders && Owns(s.orders[u], c);
        assert Owns(t.orders[u], c);
      }
    }
  }

  /** The registry and the sets change, the orders do not. */
  lemma OthersMove(s: State, t: State)
    requires Inv(s) && t.orders == s.orders && t.tally == s.tally
    requires s.used <= t.used && s.foreign <= t.foreign <= t.used
    requires forall c :: c in s.used && c in t.foreign ==> c in s.foreign
    requires forall c :: c in t.reg.chans ==> c in t.foreign || (c in s.reg.chans && t.reg.chans[c] == s.reg.chans[c])
    requires forall c :: c in s.reg.chans && c !in s.foreign ==> c in t.reg.chans && t.reg.chans[c] == s.reg.chans[c]
    ensures OrdersOk(t)
  {
    forall c | c in t.reg.chans ensures c in t.foreign || exists u :: u in t.orders && Owns(t.orders[u], c) {
      if c !in t.foreign {
        var u :| u in s.orders && Owns(s.orders[u], c);
        assert Owns(t.orders[u], c);
      }
    }
  }

  lemma SendOk(s: State, v: Id, c: Command)
    requires Inv(s) && v in s.orders && s.orders[v].Idle? && c !in s.used
    ensures OrdersOk(Next(s, SendSucceeds(v, c)))
  {
    var t := Next(s, SendSucceeds(v, c));
    forall d | d in t.reg.chans ensures d in t.foreign || exists u :: u in t.orders && Owns(t.orders[u], d) {
      if d !in s.foreign {
        var u :| u in s.orders && Owns(s.orders[u], d);
        assert Owns(t.orders[u], d);
      }
    }
  }

  lemma RegisterOk(s: State, v: Id, ch: Channel)
    requires Inv(s) && v in s.orders && s.orders[v].Published? && ch !in s.reg.tokens
    ensures OrdersOk(Next(s, RegisterOrder(v, ch)))
  {
    var t := Next(s, RegisterOrder(v, ch));
    var mine := s.orders[v].cmd;
    assert Sent(s.orders[v], mine);
    assert Owns(t.orders[v], mine);
    forall d | d in t.reg.chans ensures d in t.foreign || exists u :: u in t.orders && Owns(t.orders[u], d) {
      if d !in s.foreign && d != mine {
        var u :| u in s.orders && Owns(s.orders[u], d);
        assert Owns(t.orders[u], d);
      }
    }
  }

  lemma ForgetOk(s: State, v: Id, p: Phase)
    requires Inv(s) && v in s.orders && (s.orders[v].GotToken? || s.orders[v].Expired?)
    requires p.Returned? && p.sent == Some(s.orders[v].cmd)
    ensures OrdersOk(To(s, v, p).(reg := Remove(s.reg, s.orders[v].cmd)))
  {
    var mine := s.orders[v].cmd;
    var t := To(s, v, p).(reg := Remove(s.reg, mine));
    assert forall c :: Sent(p, c) <==> c == mine;
    assert forall c :: Sent(s.orders[v], c) <==> c == mine;
    forall u, c | u in t.orders && Owns(t.orders[u], c) ensures u != v && c != mine && c in t.reg.chans {
      assert Sent(s.orders[u], c) && Sent(s.orders[v], mine);
    }
    forall u | u in t.orders && t.orders[u].Waiting? ensures t.reg.chans[t.orders[u].cmd] == t.orders[u].ch {
      assert Owns(t.orders[u], t.orders[u].cmd);
    }
    forall d | d in t.reg.chans ensures d in t.foreign || exists u :: u in t.orders && Owns(t.orders[u], d) {
      if d !in s.foreign {
        var u :| u in s.orders && Owns(s.orders[u], d);
        assert Owns(t.orders[u], d);
      }
    }
  }

  /** The lookup of WaitForAck always finds the channel. */
  lemma LookUpSucceeds(s: State, v: Id)
    requires Inv(s) && v in s.orders && s.orders[v].Registered?
    ensures s.orders[v].cmd in s.reg.chans
    ensures Next(s, LookUpOrder(v)) == To(s, v, Waiting(s.orders[v].cmd, s.reg.chans[s.orders[v].cmd]))
  {
    assert Owns(s.orders[v], s.orders[v].cmd);
  }

  /** The steps by which an order keeps its command and its entry. */
  lemma OrderMoves(s: State, step: Step)
    requires Inv(s) && (step.SendFails? || step.LookUpOrder? || step.Receive? || step.TimeOut? || step.Update?)
    ensures OrdersOk(Next(s, step))
  {
    hide OrdersOk, RegistryOk;
    var t := Next(s, step);
    if t != s {
      if step.LookUpOrder? {
        LookUpSucceeds(s, step.v);
      }
      if step.Receive? {
        assert t.orders[step.v].GotToken?;
      }
      PhaseMoves(s, step.v, t.orders[step.v], t.reg, t.tally);
    }
  }

  lemma EnvironmentMoves(s: State, step: Step)
    requires Inv(s) && (step.Ack? || step.OtherRegisters? || step.OtherTakes? || step.OtherForgets?)
    ensures OrdersOk(Next(s, step))
  {
    OthersMove(s, Next(s, step));
  }

  lemma OrdersStep(s: State, step: Step)
    requires Inv(s)
    ensures OrdersOk(Next(s, step))
  {
    hide OrdersOk, RegistryOk, Enter, Deliver, Take, Remove;
    if Next(s, step) == s {
    } else if step.SendSucceeds? {
      SendOk(s, step.v, step.c);
    } else if step.RegisterOrder? {
      RegisterOk(s, step.v, step.ch);
    } else if step.Forget? {
      ForgetOk(s, step.v, Next(s, step).orders[step.v]);
    } else if step.Ack? || step.OtherRegisters? || step.OtherTakes? || step.OtherForgets? {
      EnvironmentMoves(s, step);
    } else {
      OrderMoves(s, step);
    }
  }

  // ----- runs

  lemma {:induction false} RunsKeepInvariant(s: State, steps: seq<Step>)
    requires Inv(s)
    ensures Inv(Exec(s, steps))
  {
    hide Next, RegistryOk, OrdersOk;
    if steps != [] {
      var n := |steps| - 1;
      RunsKeepInvariant(s, steps[..n]);
      RegistryStep(Exec(s, steps[..n]), steps[n]);
      OrdersStep(Exec(s, steps[..n]), steps[n]);
    }
  }

  lemma InitIsOk(s: State)
    requires Init(s)
    ensures Inv(s)
  {
  }

  /** An acknowledgment for `c` was processed at a moment when `c` was registered. */
  ghost predicate AckProcessed(s: State, steps: seq<Step>, c: Command) {
    exists i :: 0 <= i < |steps| && AckAt(s, steps, c, i)
  }

  ghost predicate AckAt(s: State, steps: seq<Step>, c: Command, i: nat)
    requires i < |steps|
  {
    steps[i] == Ack(c) && c in Exec(s, steps[..i]).reg.chans
  }

  /** The command an order has, or had, a positive answer for. */
  ghost predicate Credited(p: Phase, c: Command) {
    p == GotToken(c) || ((p.Returned? || p.Finished?) && p.ack && p.sent == Some(c))
  }

  /** Every command was sent for its order, and every token and credit comes from a processed acknowledgment. */
  ghost predicate Genuine(s: State, steps: seq<Step>, t: State) {
    && (forall v, c :: v in t.orders && Sent(t.orders[v], c) ==> SendSucceeds(v, c) in steps)
    && (forall v, c :: v in t.orders && Owns(t.orders[v], c) && c in t.reg.chans && Tokens(t.reg, t.reg.chans[c]) > 0 ==>
          AckProcessed(s, steps, c))
    && (forall v, c :: v in t.orders && Credited(t.orders[v], c) ==> AckProcessed(s, steps, c))
    && (forall v :: v in t.orders && (t.orders[v].Returned? || t.orders[v].Finished?) && t.orders[v].ack ==> t.orders[v].sent.Some?)
  }

  lemma ProcessedLater(s: State, steps: seq<Step>, step: Step, c: Command)
    requires AckProcessed(s, steps, c)
    ensures AckProcessed(s, steps + [step], c)
  {
    var i :| 0 <= i < |steps| && AckAt(s, steps, c, i);
    assert (steps + [step])[..i] == steps[..i];
    assert AckAt(s, steps + [step], c, i);
  }

  lemma ProcessedNow(s: State, steps: seq<Step>, c: Command)
    requires c in Exec(s, steps).reg.chans
    ensures AckProcessed(s, steps + [Ack(c)], c)
  {
    var all := steps + [Ack(c)];
    assert all[..|steps|] == steps;
    assert AckAt(s, all, c, |steps|);
  }

  lemma SentSource(t: State, step: Step, v: Id, c: Command)
    requires v in Next(t, step).orders && Sent(Next(t, step).orders[v], c)
    ensures v in t.orders && (Sent(t.orders[v], c) || step == SendSucceeds(v, c))
  {
  }

  /** A token waiting for an order was there before, or has just been put there by its own acknowledgment. */
  lemma TokenSource(t: State, step: Step, v: Id, c: Command)
    requires Inv(t)
    requires v in Next(t, step).orders && Owns(Next(t, step).orders[v], c) && c in Next(t, step).reg.chans
    requires Tokens(Next(t, step).reg, Next(t, step).reg.chans[c]) > 0
    ensures v in t.orders && c in t.reg.chans
    ensures step == Ack(c) || (Owns(t.orders[v], c) && Tokens(t.reg, t.reg.chans[c]) > 0)
  {
    hide OrdersOk;
    if Owns(t.orders[v], c) {
      OwnedIsEntered(t, v, c);
    }
  }

  lemma OwnedIsEntered(t: State, v: Id, c: Command)
    requires Inv(t) && v in t.orders && Owns(t.orders[v], c)
    ensures c in t.reg.chans && c in t.used && c !in t.foreign && t.reg.chans[c] in t.reg.tokens
    ensures t.orders[v].Waiting? ==> t.reg.chans[c] == t.orders[v].ch
  {
    assert Sent(t.orders[v], c);
  }

  lemma CreditSource(t: State, step: Step, v: Id, c: Command)
    requires Inv(t)
    requires v in Next(t, step).orders && Credited(Next(t, step).orders[v], c)
    ensures v in t.orders
    ensures Credited(t.orders[v], c)
         || (Owns(t.orders[v], c) && c in t.reg.chans && Tokens(t.reg, t.reg.chans[c]) > 0)
  {
    hide OrdersOk, RegistryOk;
    if step == Receive(v) && t.orders[v].Waiting? {
      OwnedIsEntered(t, v, t.orders[v].cmd);
    }
  }

  lemma GenuineStep(s: State, steps: seq<Step>, step: Step)
    requires Inv(Exec(s, steps)) && Genuine(s, steps, Exec(s, steps))
    ensures Genuine(s, steps + [step], Next(Exec(s, steps), step))
  {
    var t := Exec(s, steps);
    var t', all := Next(t, step), steps + [step];
    hide Inv, Exec;
    forall v, c | v in t'.orders && Sent(t'.orders[v], c) ensures SendSucceeds(v, c) in all {
      SentSource(t, step, v, c);
    }
    forall v, c | v in t'.orders && Owns(t'.orders[v], c) && c in t'.reg.chans && Tokens(t'.reg, t'.reg.chans[c]) > 0
      ensures AckProcessed(s, all, c)
    {
      TokenSource(t, step, v, c);
      Justified(s, steps, step, t, v, c);
    }
    forall v, c | v in t'.orders && Credited(t'.orders[v], c) ensures AckProcessed(s, all, c) {
      CreditSource(t, step, v, c);
      Justified(s, steps, step, t, v, c);
    }
  }

  lemma Justified(s: State, steps: seq<Step>, step: Step, t: State, v: Id, c: Command)
    requires t == Exec(s, steps) && Genuine(s, steps, t) && v in t.orders
    requires || (step == Ack(c) && c in t.reg.chans)
             || Credited(t.orders[v], c)
             || (Owns(t.orders[v], c) && c in t.reg.chans && Tokens(t.reg, t.reg.chans[c]) > 0)
    ensures AckProcessed(s, steps + [step], c)
  {
    hide Exec;
    if step == Ack(c) && c in t.reg.chans {
      ProcessedNow(s, steps, c);
    } else {
      ProcessedLater(s, steps, step, c);
    }
  }

  lemma GenuineAtFirst(s: State)
    requires Init(s)
    ensures Genuine(s, [], s)
  {
  }

  lemma {:induction false} RunsAreGenuine(s: State, steps: seq<Step>)
    requires Init(s)
    ensures Genuine(s, steps, Exec(s, steps))
  {
    hide Next, Genuine, Inv, Init;
    if steps == [] {
      GenuineAtFirst(s);
    } else {
      var n := |steps| - 1;
      RunsAreGenuine(s, steps[..n]);
      InitIsOk(s);
      RunsKeepInvariant(s, steps[..n]);
      GenuineStep(s, steps[..n], steps[n]);
      assert steps[..n] + [steps[n]] == steps;
    }
  }

  /**
   WaitForAck answers true for an order only if an acknowledgment with the identifier of that
   very order was processed while it was registered, in every interleaving.
   */
  lemma AcksAreGenuine(s: State, steps: seq<Step>, v: Id)
    requires Init(s) && v in Exec(s, steps).orders
    requires var p := Exec(s, steps).orders[v]; (p.Returned? || p.Finished?) && p.ack
    ensures var p := Exec(s, steps).orders[v];
            p.sent.Some? && SendSucceeds(v, p.sent.value) in steps && AckProcessed(s, steps, p.sent.value)
  {
    RunsAreGenuine(s, steps);
    var p := Exec(s, steps).orders[v];
    assert Credited(p, p.sent.value) && Sent(p, p.sent.value);
  }

  /** Registered and neither answered nor given up yet. */
  ghost predicate Pending(p: Phase, c: Command) { (p.Registered? || p.Waiting?) && p.cmd == c }

  /** No acknowledgment precedes the registration of its command, and none is lost after it. */
  ghost predicate NothingLost(s: State, steps: seq<Step>, t: State) {
    && (forall c :: AckProcessed(s, steps, c) ==> c in t.used)
    && (forall v, c :: v in t.orders && t.orders[v] == Published(c) ==> !AckProcessed(s, steps, c))
    && (forall v, c :: v in t.orders && Pending(t.orders[v], c) && AckProcessed(s, steps, c) ==>
          c in t.reg.chans && Tokens(t.reg, t.reg.chans[c]) > 0)
  }

  lemma ProcessedSource(s: State, steps: seq<Step>, step: Step, c: Command)
    requires AckProcessed(s, steps + [step], c)
    ensures AckProcessed(s, steps, c) || (step == Ack(c) && c in Exec(s, steps).reg.chans)
  {
    hide Exec;
    var all := steps + [step];
    var i :| 0 <= i < |all| && AckAt(s, all, c, i);
    if i < |steps| {
      assert all[..i] == steps[..i];
      assert AckAt(s, steps, c, i);
    } else {
      assert all[..i] == steps;
    }
  }

  lemma SharedCommand(t: State, v: Id, u: Id, c: Command)
    requires Inv(t) && v in t.orders && u in t.orders && Sent(t.orders[v], c) && Sent(t.orders[u], c)
    ensures u == v
  {
  }

  /** Nobody else touches the entry or takes the token of a pending order. */
  lemma TokenStays(t: State, step: Step, v: Id, c: Command)
    requires Inv(t) && v in t.orders && Pending(t.orders[v], c)
    requires v in Next(t, step).orders && Pending(Next(t, step).orders[v], c)
    ensures c in t.reg.chans && c in Next(t, step).reg.chans
    ensures Tokens(t.reg, t.reg.chans[c]) > 0 || step == Ack(c) ==>
              Tokens(Next(t, step).reg, Next(t, step).reg.chans[c]) > 0
  {
    hide OrdersOk;
    OwnedIsEntered(t, v, c);
    if step.RegisterOrder? || step.Receive? || step.Forget? {
      var u := step.v;
      if u in t.orders && (t.orders[u].Published? || t.orders[u].Waiting? || t.orders[u].GotToken? || t.orders[u].Expired?) {
        assert Sent(t.orders[u], t.orders[u].cmd) && Sent(t.orders[v], c);
        if t.orders[u].cmd == c {
          SharedCommand(t, v, u, c);
        }
        if t.orders[u].Waiting? {
          OwnedIsEntered(t, u, t.orders[u].cmd);
        }
      }
    }
  }

  /** A command that is published and not registered yet has no entry. */
  lemma PublishedIsUnknown(t: State, v: Id, c: Command)
    requires Inv(t) && v in t.orders && t.orders[v] == Published(c)
    ensures c !in t.reg.chans
  {
    hide RegistryOk;
    assert Sent(t.orders[v], c);
    assert forall u :: u in t.orders && Owns(t.orders[u], c) ==> Sent(t.orders[u], c) && u == v;
  }

  lemma PublishedSource(t: State, step: Step, v: Id, c: Command)
    requires v in Next(t, step).orders && Next(t, step).orders[v] == Published(c)
    ensures v in t.orders && (t.orders[v] == Published(c) || (step == SendSucceeds(v, c) && c !in t.used))
  {
  }

  lemma PendingSource(t: State, step: Step, v: Id, c: Command)
    requires v in Next(t, step).orders && Pending(Next(t, step).orders[v], c)
    ensures v in t.orders && (Pending(t.orders[v], c) || (step.RegisterOrder? && t.orders[v] == Published(c)))
  {
  }

  lemma UsedGrows(t: State, step: Step)
    ensures t.used <= Next(t, step).used
  {
  }

  lemma NothingLostStep(s: State, steps: seq<Step>, step: Step)
    requires Inv(Exec(s, steps)) && NothingLost(s, steps, Exec(s, steps))
    ensures NothingLost(s, steps + [step], Next(Exec(s, steps), step))
  {
    var t := Exec(s, steps);
    var t', all := Next(t, step), steps + [step];
    UsedGrows(t, step);
    assert t.reg.chans.Keys <= t.used;
    hide Inv, Exec, Next, AckProcessed;
    forall c | AckProcessed(s, all, c) ensures c in t'.used {
      ProcessedSource(s, steps, step, c);
    }
    forall v, c | v in t'.orders && t'.orders[v] == Published(c) ensures !AckProcessed(s, all, c) {
      PublishedSource(t, step, v, c);
      if t.orders[v] == Published(c) {
        PublishedIsUnknown(t, v, c);
      }
      if AckProcessed(s, all, c) {
        ProcessedSource(s, steps, step, c);
      }
    }
    forall v, c | v in t'.orders && Pending(t'.orders[v], c) && AckProcessed(s, all, c)
      ensures c in t'.reg.chans && Tokens(t'.reg, t'.reg.chans[c]) > 0
    {
      PendingSource(t, step, v, c);
      ProcessedSource(s, steps, step, c);
      if Pending(t.orders[v], c) {
        TokenStays(t, step, v, c);
      }
    }
  }

  lemma NothingLostAtFirst(s: State)
    requires Init(s)
    ensures NothingLost(s, [], s)
  {
  }

  lemma {:induction false} RunsLoseNothing(s: State, steps: seq<Step>)
    requires Init(s)
    ensures NothingLost(s, steps, Exec(s, steps))
  {
    hide Next, NothingLost, Inv, Init;
    if steps == [] {
      NothingLostAtFirst(s);
    } else {
      var n := |steps| - 1;
      RunsLoseNothing(s, steps[..n]);
      InitIsOk(s);
      RunsKeepInvariant(s, steps[..n]);
      NothingLostStep(s, steps[..n], steps[n]);
      assert steps[..n] + [steps[n]] == steps;
    }
  }

  /**
   While WaitForAck waits, it has a token to receive exactly when an acknowledgment with the
   identifier of that very order has been processed since it was registered.
   */
  lemma TokenIffAcknowledged(s: State, steps: seq<Step>, v: Id)
    requires Init(s) && v in Exec(s, steps).orders && Exec(s, steps).orders[v].Waiting?
    ensures var t := Exec(s, steps);
            Tokens(t.reg, t.orders[v].ch) > 0 <==> AckProcessed(s, steps, t.orders[v].cmd)
  {
    hide Exec, AckProcessed;
    InitIsOk(s);
    RunsKeepInvariant(s, steps);
    RunsAreGenuine(s, steps);
    RunsLoseNothing(s, steps);
    var t := Exec(s, steps);
    OwnedIsEntered(t, v, t.orders[v].cmd);
    assert Pending(t.orders[v], t.orders[v].cmd);
  }

  // ----- exactly when an order is reported acknowledged

  /** Step `i` is the order's Receive, taken while it waited and after its acknowledgment was processed. */
  ghost predicate AnsweredAt(s: State, steps: seq<Step>, v: Id, i: nat)
    requires i < |steps|
  {
    var t := Exec(s, steps[..i]);
    steps[i] == Receive(v) && v in t.orders && t.orders[v].Waiting? && AckProcessed(s, steps[..i], t.orders[v].cmd)
  }

  ghost predicate Answered(s: State, steps: seq<Step>, v: Id) {
    exists i :: 0 <= i < |steps| && AnsweredAt(s, steps, v, i)
  }

  /** Step `i` is the order's timer, firing while it waited. */
  ghost predicate TimedOutAt(s: State, steps: seq<Step>, v: Id, i: nat)
    requires i < |steps|
  {
    var t := Exec(s, steps[..i]);
    steps[i] == TimeOut(v) && v in t.orders && t.orders[v].Waiting?
  }

  ghost predicate TimedOut(s: State, steps: seq<Step>, v: Id) {
    exists i :: 0 <= i < |steps| && TimedOutAt(s, steps, v, i)
  }

  ghost predicate HasAnswer(p: Phase) { p.GotToken? || (Closed(p) && p.ack) }

  ghost predicate HasTimedOut(p: Phase) { p.Expired? || (Closed(p) && p.err == Some(AckTimeout)) }

  /** The past of every order can be read off its phase. */
  ghost predicate Remembered(s: State, steps: seq<Step>, t: State) {
    forall v :: v in t.orders ==>
      (HasAnswer(t.orders[v]) <==> Answered(s, steps, v)) && (HasTimedOut(t.orders[v]) <==> TimedOut(s, steps, v))
  }

  lemma AnsweredNext(s: State, steps: seq<Step>, step: Step, v: Id)
    requires Init(s)
    ensures var t := Exec(s, steps);
            Answered(s, steps + [step], v) <==>
            || Answered(s, steps, v)
            || (step == Receive(v) && v in t.orders && t.orders[v].Waiting? && Tokens(t.reg, t.orders[v].ch) > 0)
  {
    hide Exec, AckProcessed, Init;
    var all, n, t := steps + [step], |steps|, Exec(s, steps);
    assert forall i :: 0 <= i < n ==> all[..i] == steps[..i];
    assert all[..n] == steps;
    assert forall i :: 0 <= i < n ==> (AnsweredAt(s, all, v, i) <==> AnsweredAt(s, steps, v, i));
    if v in t.orders && t.orders[v].Waiting? {
      TokenIffAcknowledged(s, steps, v);
    }
    assert AnsweredAt(s, all, v, n) <==>
           step == Receive(v) && v in t.orders && t.orders[v].Waiting? && Tokens(t.reg, t.orders[v].ch) > 0;
    if Answered(s, steps, v) {
      var i :| 0 <= i < n && AnsweredAt(s, steps, v, i);
      assert AnsweredAt(s, all, v, i);
    }
    if Answered(s, all, v) {
      var i :| 0 <= i < |all| && AnsweredAt(s, all, v, i);
      assert i == n || AnsweredAt(s, steps, v, i);
    }
  }

  lemma TimedOutNext(s: State, steps: seq<Step>, step: Step, v: Id)
    ensures var t := Exec(s, steps);
            TimedOut(s, steps + [step], v) <==>
            TimedOut(s, steps, v) || (step == TimeOut(v) && v in t.orders && t.orders[v].Waiting?)
  {
    hide Exec;
    var all, n := steps + [step], |steps|;
    assert forall i :: 0 <= i < n ==> all[..i] == steps[..i];
    assert all[..n] == steps;
    if TimedOut(s, steps, v) {
      var i :| 0 <= i < n && TimedOutAt(s, steps, v, i);
      assert TimedOutAt(s, all, v, i);
    }
    if TimedOut(s, all, v) {
      var i :| 0 <= i < |all| && TimedOutAt(s, all, v, i);
      assert i == n || TimedOutAt(s, steps, v, i);
    }
    assert TimedOutAt(s, all, v, n) <==> step == TimeOut(v) && v in Exec(s, steps).orders && Exec(s, steps).orders[v].Waiting?;
  }

  /** How one step changes what an order remembers. */
  lemma MemoryStep(t: State, step: Step, v: Id)
    requires v in t.orders
    ensures v in Next(t, step).orders
    ensures var p, p' := t.orders[v], Next(t, step).orders[v];
            && (HasAnswer(p') <==> HasAnswer(p) || (step == Receive(v) && p.Waiting? && Tokens(t.reg, p.ch) > 0))
            && (HasTimedOut(p') <==> HasTimedOut(p) || (step == TimeOut(v) && p.Waiting?))
  {
    hide Enter, Deliver, Take, Remove, Tokens;
  }

  lemma {:induction false} RunsAreRemembered(s: State, steps: seq<Step>)
    requires Init(s)
    ensures Remembered(s, steps, Exec(s, steps))
  {
    hide Next, Answered, TimedOut, HasAnswer, HasTimedOut;
    if steps == [] {
      RememberedAtFirst(s);
    } else {
      var n := |steps| - 1;
      var t := Exec(s, steps[..n]);
      RunsAreRemembered(s, steps[..n]);
      assert steps[..n] + [steps[n]] == steps;
      NextKeepsOrders(t, steps[n]);
      forall v | v in t.orders
        ensures HasAnswer(Next(t, steps[n]).orders[v]) <==> Answered(s, steps, v)
        ensures HasTimedOut(Next(t, steps[n]).orders[v]) <==> TimedOut(s, steps, v)
      {
        MemoryStep(t, steps[n], v);
        AnsweredNext(s, steps[..n], steps[n], v);
        TimedOutNext(s, steps[..n], steps[n], v);
      }
    }
  }

  lemma RememberedAtFirst(s: State)
    requires Init(s)
    ensures Remembered(s, [], s)
  {
  }

  /**
   A finished order is reported acknowledged exactly when WaitForAck took its token, after an
   acknowledgment for that very order had been processed while it was registered.  It is
   reported as timed out exactly when its timer fired while it waited.
   */
  lemma AcknowledgedIff(s: State, steps: seq<Step>, v: Id)
    requires Init(s) && v in Exec(s, steps).orders && Closed(Exec(s, steps).orders[v])
    ensures Exec(s, steps).orders[v].ack <==> Answered(s, steps, v)
    ensures Exec(s, steps).orders[v].err == Some(AckTimeout) <==> TimedOut(s, steps, v)
  {
    hide Exec, Answered, TimedOut;
    RunsAreRemembered(s, steps);
  }

  /**
   What a timeout means: at that moment no acknowledgment had been processed since the order was
   registered, or its token was there, WaitForAck could have received it, and the timer won.
   */
  lemma TimeoutMeans(s: State, steps: seq<Step>, v: Id, i: nat)
    requires Init(s) && i < |steps| && TimedOutAt(s, steps, v, i)
    ensures var t := Exec(s, steps[..i]);
            if AckProcessed(s, steps[..i], t.orders[v].cmd) then
              HasAnswer(Next(t, Receive(v)).orders[v])
            else
              Next(t, Receive(v)) == t
  {
    hide AckProcessed, Init;
    TokenIffAcknowledged(s, steps[..i], v);
  }

  /** At most one token per channel, and one channel per command, in every interleaving. */
  lemma ChannelsHoldOneToken(s: State, steps: seq<Step>)
    requires Init(s)
    ensures var r := Exec(s, steps).reg;
            && (forall ch :: ch in r.tokens ==> r.tokens[ch] <= 1)
            && (forall c, d :: c in r.chans && d in r.chans && r.chans[c] == r.chans[d] ==> c == d)
  {
    InitIsOk(s);
    RunsKeepInvariant(s, steps);
  }

  // ----- the result of a dispatch

  ghost predicate Closed(p: Phase) { p.Returned? || p.Finished? }

  /** A vehicle either acknowledged or has an error, and "unknown command" never happens. */
  ghost predicate OutcomesOk(s: State) {
    forall v :: v in s.orders && Closed(s.orders[v]) ==>
      (s.orders[v].ack <==> s.orders[v].err.None?) && s.orders[v].err != Some(UnknownCommand)
  }

  ghost function Succeeded(orders: map<Id, Phase>): set<Id> {
    set v | v in orders && orders[v].Finished? && orders[v].ack && orders[v].err.None?
  }

  /** The tally that the finished orders amount to, without any order among them. */
  ghost function ResultOf(orders: map<Id, Phase>): Tally {
    Tally(map v | v in orders && orders[v].Finished? && orders[v].err.Some? :: orders[v].err.value,
          map v | v in orders && orders[v].Finished? :: orders[v].ack && orders[v].err.None?,
          |Succeeded(orders)|)
  }

  lemma OutcomesStep(s: State, step: Step)
    requires Inv(s) && OutcomesOk(s)
    ensures OutcomesOk(Next(s, step))
  {
    hide RegistryOk, OrdersOk, Enter, Deliver, Take, Remove;
    if step.LookUpOrder? && step.v in s.orders && s.orders[step.v].Registered? {
      LookUpSucceeds(s, step.v);
    }
  }

  lemma TallyStep(s: State, step: Step)
    requires s.tally == ResultOf(s.orders)
    ensures Next(s, step).tally == ResultOf(Next(s, step).orders)
  {
    hide Enter, Deliver, Take, Remove;
    var t := Next(s, step);
    if step.Update? && t != s {
      UpdateTally(s.orders, step.v);
    } else if t.orders != s.orders {
      UnfinishedMoves(s.orders, t.orders);
    }
  }

  lemma UnfinishedMoves(a: map<Id, Phase>, b: map<Id, Phase>)
    requires a.Keys == b.Keys
    requires forall v :: v in a && a[v] != b[v] ==> !a[v].Finished? && !b[v].Finished?
    ensures ResultOf(a) == ResultOf(b)
  {
    assert Succeeded(a) == Succeeded(b);
    assert ResultOf(a).errors == ResultOf(b).errors;
    assert ResultOf(a).acknowledged == ResultOf(b).acknowledged;
  }

  lemma UpdateTally(orders: map<Id, Phase>, v: Id)
    requires v in orders && orders[v].Returned?
    ensures var p := orders[v];
            ResultOf(orders[v := Finished(p.sent, p.ack, p.err)]) == Record(ResultOf(orders), v, p.ack, p.err)
  {
    var p := orders[v];
    var after := orders[v := Finished(p.sent, p.ack, p.err)];
    var x, y := ResultOf(after), Record(ResultOf(orders), v, p.ack, p.err);
    assert x.errors == y.errors;
    assert x.acknowledged == y.acknowledged;
    if p.ack && p.err.None? {
      assert v !in Succeeded(orders);
      assert Succeeded(after) == Succeeded(orders) + {v};
    } else {
      assert Succeeded(after) == Succeeded(orders);
    }
  }

  lemma NextKeepsOrders(s: State, step: Step)
    ensures Next(s, step).orders.Keys == s.orders.Keys
  {
  }

  lemma {:induction false} RunsTally(s: State, steps: seq<Step>)
    requires Init(s)
    ensures var t := Exec(s, steps);
            t.orders.Keys == s.orders.Keys && OutcomesOk(t) && t.tally == ResultOf(t.orders)
  {
    if steps == [] {
      assert Succeeded(s.orders) == {};
      assert ResultOf(s.orders).errors == map[];
      assert ResultOf(s.orders).acknowledged == map[];
    } else {
      hide Next, Inv, OutcomesOk, ResultOf;
      var n := |steps| - 1;
      RunsTally(s, steps[..n]);
      InitIsOk(s);
      RunsKeepInvariant(s, steps[..n]);
      OutcomesStep(Exec(s, steps[..n]), steps[n]);
      TallyStep(Exec(s, steps[..n]), steps[n]);
      NextKeepsOrders(Exec(s, steps[..n]), steps[n]);
    }
  }

  ghost predicate AllFinished(s: State) {
    forall v :: v in s.orders ==> s.orders[v].Finished?
  }

  /**
   When all goroutines of a dispatch have finished, in whatever schedule: every order has an
   entry, an order is acknowledged exactly when it has no error, the count is right, nothing
   of the dispatch is left in the registry, and the result is a function of the outcomes.
   */
  lemma DispatchCompletes(s: State, steps: seq<Step>)
    requires Init(s) && AllFinished(Exec(s, steps))
    ensures var t := Exec(s, steps);
            && t.tally == ResultOf(t.orders)
            && t.tally.acknowledged.Keys == s.orders.Keys
            && (forall v :: v in s.orders ==> (t.tally.acknowledged[v] <==> v !in t.tally.errors))
            && t.tally.ackCount == |set v | v in s.orders && t.tally.acknowledged[v]|
            && (forall v :: v in t.tally.errors ==> t.tally.errors[v] != UnknownCommand)
            && t.reg.chans.Keys <= t.foreign
  {
    var t := Exec(s, steps);
    RunsTally(s, steps);
    InitIsOk(s);
    RunsKeepInvariant(s, steps);
    assert Succeeded(t.orders) == set v | v in s.orders && t.tally.acknowledged[v];
    forall c | c in t.reg.chans ensures c in t.foreign {
    }
  }

  // ----- a dispatch can always finish

  /** How many steps an order has ahead of it at most. */
  ghost function Rank(p: Phase): nat {
    match p
    case Idle => 6
    case Published(_) => 5
    case Registered(_) => 4
    case Waiting(_, _) => 3
    case GotToken(_) => 2
    case Expired(_) => 2
    case Returned(_, _, _) => 1
    case Finished(_, _, _) => 0
  }

  /** A step of the goroutine of order `v`. */
  ghost predicate OwnStep(step: Step, v: Id) {
    match step
    case SendFails(u) => u == v
    case SendSucceeds(u, _) => u == v
    case RegisterOrder(u, _) => u == v
    case LookUpOrder(u) => u == v
    case Receive(u) => u == v
    case TimeOut(u) => u == v
    case Forget(u) => u == v
    case Update(u) => u == v
    case _ => false
  }

  /** No step raises a rank, and every own step that is taken lowers it: an order takes six steps at most. */
  lemma RanksFall(t: State, step: Step, v: Id)
    requires v in t.orders
    ensures v in Next(t, step).orders
    ensures Rank(Next(t, step).orders[v]) <= Rank(t.orders[v])
    ensures OwnStep(step, v) && Next(t, step) != t ==> Rank(Next(t, step).orders[v]) < Rank(t.orders[v])
    ensures !OwnStep(step, v) ==> Next(t, step).orders[v] == t.orders[v]
  {
    hide Enter, Deliver, Take, Remove, Tokens;
  }

  lemma {:induction false} FreshChannel(used: set<Channel>) returns (n: nat)
    ensures forall ch :: ch in used ==> ch.address < n
  {
    n := 0;
    if used != {} {
      var ch :| ch in used;
      var m := FreshChannel(used - {ch});
      n := if ch.address < m then m else ch.address + 1;
    }
  }

  /** The step an unfinished order can take. */
  lemma NextOwnStep(t: State, v: Id) returns (step: Step)
    requires Inv(t) && v in t.orders && !t.orders[v].Finished?
    ensures OwnStep(step, v) && Next(t, step) != t
  {
    hide Inv;
    match t.orders[v]
    case Idle => step := SendFails(v);
    case Published(c) =>
      var n := FreshChannel(t.reg.tokens.Keys);
      step := RegisterOrder(v, Channel(n));
      assert Next(t, step).orders[v].Registered?;
    case Registered(c) => step := LookUpOrder(v);
    case Waiting(c, ch) => step := TimeOut(v);
    case GotToken(c) => step := Forget(v);
    case Expired(c) => step := Forget(v);
    case Returned(_, _, _) => step := Update(v);
    assert Next(t, step).orders[v] != t.orders[v];
  }

  /** In no reachable state is an order stuck: it has a step of its own that brings it closer to the end. */
  lemma NobodyIsStuck(s: State, steps: seq<Step>, v: Id)
    requires Init(s) && v in Exec(s, steps).orders && !Exec(s, steps).orders[v].Finished?
    ensures var t := Exec(s, steps);
            exists step :: OwnStep(step, v) && v in Next(t, step).orders && Rank(Next(t, step).orders[v]) < Rank(t.orders[v])
  {
    hide Exec, Next, OwnStep;
    InitIsOk(s);
    RunsKeepInvariant(s, steps);
    var step := NextOwnStep(Exec(s, steps), v);
    RanksFall(Exec(s, steps), step, v);
  }

  lemma {:induction false} ExecConcat(s: State, a: seq<Step>, b: seq<Step>)
    ensures Exec(s, a + b) == Exec(Exec(s, a), b)
    decreases |b|
  {
    hide Next;
    if b == [] {
      assert a + b == a;
    } else {
      var n := |b| - 1;
      assert (a + b)[..|a + b| - 1] == a + b[..n];
      ExecConcat(s, a, b[..n]);
    }
  }

  lemma {:induction false} FinishOne(t: State, v: Id) returns (more: seq<Step>)
    requires Inv(t) && v in t.orders
    ensures var t' := Exec(t, more);
            && Inv(t') && t'.orders.Keys == t.orders.Keys && t'.orders[v].Finished?
            && forall u :: u in t.orders && u != v ==> t'.orders[u] == t.orders[u]
    decreases Rank(t.orders[v])
  {
    hide Next, Inv, OwnStep;
    more := [];
    if !t.orders[v].Finished? {
      var step := NextOwnStep(t, v);
      OwnStepIsAlone(t, step, v);
      RanksFall(t, step, v);
      RunsKeepInvariant(t, [step]);
      assert Exec(t, [step]) == Next(t, step) by { assert [step][..0] == []; }
      more := FinishOne(Next(t, step), v);
      ExecConcat(t, [step], more);
      more := [step] + more;
    }
  }

  lemma OwnStepIsAlone(t: State, step: Step, v: Id)
    requires OwnStep(step, v) && v in t.orders
    ensures Next(t, step).orders.Keys == t.orders.Keys
    ensures forall u :: u in t.orders && u != v ==> Next(t, step).orders[u] == t.orders[u]
  {
    hide Enter, Deliver, Take, Remove, Tokens;
    NextKeepsOrders(t, step);
    forall u | u in t.orders && u != v ensures Next(t, step).orders[u] == t.orders[u] {
      RanksFall(t, step, u);
    }
  }

  lemma {:induction false} FinishAll(t: State, open: set<Id>) returns (more: seq<Step>)
    requires Inv(t) && open == set v | v in t.orders && !t.orders[v].Finished?
    ensures AllFinished(Exec(t, more))
    decreases |open|
  {
    hide Next, Inv;
    more := [];
    if open == {} {
      assert forall v :: v in t.orders ==> t.orders[v].Finished? || v in open;
    } else {
      var v :| v in open;
      var first := FinishOne(t, v);
      var t' := Exec(t, first);
      var rest := set u | u in t'.orders && !t'.orders[u].Finished?;
      assert rest == open - {v};
      var later := FinishAll(t', rest);
      ExecConcat(t, first, later);
      more := first + later;
    }
  }

  /** From every reachable state all goroutines can run to their end, so the wait for them can return. */
  lemma DispatchCanFinish(s: State, steps: seq<Step>)
    requires Init(s)
    ensures exists more :: AllFinished(Exec(s, steps + more))
  {
    hide Exec, Next, AllFinished, Inv;
    InitIsOk(s);
    RunsKeepInvariant(s, steps);
    var t := Exec(s, steps);
    var more := FinishAll(t, set v | v in t.orders && !t.orders[v].Finished?);
    ExecConcat(s, steps, more);
    assert AllFinished(Exec(s, steps + more));
  }

  /** Two schedules with the same outcome for every order report the same result. */
  lemma ScheduleDoesNotMatter(s: State, steps: seq<Step>, s': State, steps': seq<Step>)
    requires Init(s) && Init(s') && AllFinished(Exec(s, steps)) && AllFinished(Exec(s', steps'))
    requires s.orders.Keys == s'.orders.Keys
    requires forall v :: v in s.orders ==>
               v in Exec(s, steps).orders && v in Exec(s', steps').orders
               && Exec(s, steps).orders[v].err == Exec(s', steps').orders[v].err
    ensures Exec(s, steps).tally == Exec(s', steps').tally
  {
    RunsTally(s, steps);
    RunsTally(s', steps');
    var a, b := Exec(s, steps).orders, Exec(s', steps').orders;
    assert Succeeded(a) == Succeeded(b);
    assert ResultOf(a).errors == ResultOf(b).errors;
    assert ResultOf(a).acknowledged == ResultOf(b).acknowledged;
  }

  // ----- how an acknowledgment gets lost

  /** A dispatch of one order, in phase `p`, with the registry `r`. */
  ghost function Lone(v: Id, p: Phase, r: Registry, c: Command): State {
    State(map[v := p], r, {c}, {}, Tally(map[], map[], 0))
  }

  ghost function FirstState(v: Id): State {
    State(map[v := Idle], Registry(map[], map[]), {}, {}, Tally(map[], map[], 0))
  }

  /** The registry with one command, whose channel holds `n` tokens. */
  ghost function Single(c: Command, ch: Channel, n: nat): Registry { Registry(map[c := ch], map[ch := n]) }

  ghost predicate EndsInTimeout(t: State, v: Id) { t.tally == Tally(map[v := AckTimeout], map[v := false], 0) }

  lemma FirstStateIsInitial(v: Id)
    ensures Init(FirstState(v))
  {
  }

  lemma SendingSteps(v: Id, c: Command, ch: Channel)
    ensures var none := Registry(map[], map[]);
            && Next(FirstState(v), SendSucceeds(v, c)) == Lone(v, Published(c), none, c)
            && Next(Lone(v, Published(c), none, c), Ack(c)) == Lone(v, Published(c), none, c)
            && Next(Lone(v, Published(c), none, c), RegisterOrder(v, ch)) == Lone(v, Registered(c), Single(c, ch, 0), c)
            && Next(Lone(v, Registered(c), Single(c, ch, 0), c), LookUpOrder(v)) == Lone(v, Waiting(c, ch), Single(c, ch, 0), c)
  {
    assert FirstState(v).used + {c} == {c};
  }

  lemma LosingSteps(v: Id, c: Command, ch: Channel, n: nat)
    ensures Next(Lone(v, Waiting(c, ch), Single(c, ch, 0), c), Ack(c)) == Lone(v, Waiting(c, ch), Single(c, ch, 1), c)
    ensures Next(Lone(v, Expired(c), Single(c, ch, 0), c), Ack(c)) == Lone(v, Expired(c), Single(c, ch, 1), c)
    ensures Next(Lone(v, Waiting(c, ch), Single(c, ch, n), c), TimeOut(v)) == Lone(v, Expired(c), Single(c, ch, n), c)
    ensures Next(Lone(v, Expired(c), Single(c, ch, n), c), Forget(v))
         == Lone(v, Returned(Some(c), false, Some(AckTimeout)), Remove(Single(c, ch, n), c), c)
  {
  }

  lemma LastStep(v: Id, c: Command, r: Registry)
    ensures EndsInTimeout(Next(Lone(v, Returned(Some(c), false, Some(AckTimeout)), r, c), Update(v)), v)
  {
  }

  /** A sequence of states that follows the steps is the run. */
  lemma {:induction false} Follow(states: seq<State>, steps: seq<Step>, k: nat)
    requires |states| == |steps| + 1 && k <= |steps|
    requires forall i :: 0 <= i < |steps| ==> Next(states[i], steps[i]) == states[i + 1]
    ensures Exec(states[0], steps[..k]) == states[k]
  {
    hide Next;
    if k > 0 {
      Follow(states, steps, k - 1);
      assert steps[..k][..k - 1] == steps[..k - 1] && steps[..k][k - 1] == steps[k - 1];
    }
  }

  /** The runs below: six states followed by the update that reports the timeout. */
  lemma {:induction false} ReportsTimeout(states: seq<State>, steps: seq<Step>, v: Id, c: Command, r: Registry)
    requires |states| == 7 == |steps| && steps[6] == Update(v)
    requires forall i :: 0 <= i < 6 ==> Next(states[i], steps[i]) == states[i + 1]
    requires states[6] == Lone(v, Returned(Some(c), false, Some(AckTimeout)), r, c)
    ensures EndsInTimeout(Exec(states[0], steps), v)
    ensures forall k :: 0 <= k <= 6 ==> Exec(states[0], steps[..k]) == states[k]
  {
    hide Next, Exec, Lone, EndsInTimeout;
    LastStep(v, c, r);
    var all := states + [Next(states[6], steps[6])];
    forall k | 0 <= k <= 7 ensures Exec(states[0], steps[..k]) == all[k] {
      Follow(all, steps, k);
    }
    assert steps[..7] == steps;
  }

  /**
   "While it was registered" cannot be dropped: SendOrder registers the channel only after the
   order is out, so an acknowledgment that arrives in between is lost and the order times out.
   */
  lemma EarlyAckIsLost(v: Id, c: Command, ch: Channel)
    ensures var steps := [SendSucceeds(v, c), Ack(c), RegisterOrder(v, ch), LookUpOrder(v), TimeOut(v), Forget(v), Update(v)];
            Init(FirstState(v)) && EndsInTimeout(Exec(FirstState(v), steps), v)
  {
    hide Next, Exec, Lone, EndsInTimeout, Init, FirstState, Remove, Single;
    var none, open := Registry(map[], map[]), Single(c, ch, 0);
    var steps := [SendSucceeds(v, c), Ack(c), RegisterOrder(v, ch), LookUpOrder(v), TimeOut(v), Forget(v), Update(v)];
    SendingSteps(v, c, ch);
    LosingSteps(v, c, ch, 0);
    FirstStateIsInitial(v);
    ReportsTimeout([FirstState(v), Lone(v, Published(c), none, c), Lone(v, Published(c), none, c), Lone(v, Registered(c), open, c),
                    Lone(v, Waiting(c, ch), open, c), Lone(v, Expired(c), open, c),
                    Lone(v, Returned(Some(c), false, Some(AckTimeout)), Remove(open, c), c)], steps, v, c, Remove(open, c));
  }

  /** The token is there, and the select of WaitForAck takes the timer. */
  lemma TimerBeatsToken(v: Id, c: Command, ch: Channel)
    ensures var steps := [SendSucceeds(v, c), RegisterOrder(v, ch), LookUpOrder(v), Ack(c), TimeOut(v), Forget(v), Update(v)];
            && Init(FirstState(v)) && AckProcessed(FirstState(v), steps, c)
            && EndsInTimeout(Exec(FirstState(v), steps), v)
  {
    hide Next, Exec, EndsInTimeout, Init, FirstState, Remove;
    var none, open, full := Registry(map[], map[]), Single(c, ch, 0), Single(c, ch, 1);
    var steps := [SendSucceeds(v, c), RegisterOrder(v, ch), LookUpOrder(v), Ack(c), TimeOut(v), Forget(v), Update(v)];
    SendingSteps(v, c, ch);
    LosingSteps(v, c, ch, 1);
    FirstStateIsInitial(v);
    ReportsTimeout([FirstState(v), Lone(v, Published(c), none, c), Lone(v, Registered(c), open, c),
                    Lone(v, Waiting(c, ch), open, c), Lone(v, Waiting(c, ch), full, c), Lone(v, Expired(c), full, c),
                    Lone(v, Returned(Some(c), false, Some(AckTimeout)), Remove(full, c), c)], steps, v, c, Remove(full, c));
    assert AckAt(FirstState(v), steps, c, 3);
  }

  /** Between the timer and the removal of the entry an acknowledgment still finds the channel, in vain. */
  lemma LateAckIsLost(v: Id, c: Command, ch: Channel)
    ensures var steps := [SendSucceeds(v, c), RegisterOrder(v, ch), LookUpOrder(v), TimeOut(v), Ack(c), Forget(v), Update(v)];
            && Init(FirstState(v)) && AckProcessed(FirstState(v), steps, c)
            && EndsInTimeout(Exec(FirstState(v), steps), v)
  {
    hide Next, Exec, EndsInTimeout, Init, FirstState, Remove;
    var none, open, full := Registry(map[], map[]), Single(c, ch, 0), Single(c, ch, 1);
    var steps := [SendSucceeds(v, c), RegisterOrder(v, ch), LookUpOrder(v), TimeOut(v), Ack(c), Forget(v), Update(v)];
    SendingSteps(v, c, ch);
    LosingSteps(v, c, ch, 0);
    LosingSteps(v, c, ch, 1);
    FirstStateIsInitial(v);
    ReportsTimeout([FirstState(v), Lone(v, Published(c), none, c), Lone(v, Registered(c), open, c),
                    Lone(v, Waiting(c, ch), open, c), Lone(v, Expired(c), open, c), Lone(v, Expired(c), full, c),
                    Lone(v, Returned(Some(c), false, Some(AckTimeout)), Remove(full, c), c)], steps, v, c, Remove(full, c));
    assert AckAt(FirstState(v), steps, c, 4);
  }
}

/**
 * The terminal client's application object (`App`, crates/piatui/src/app.rs):
 * whether the client keeps running, its mirror of the daemon state, and the
 * commands it has written to the daemon connection.
 *
 * One call of `handle_events` first drains the daemon connection, feeding
 * every `data` notification to the reconciler until the connection reports
 * that nothing more is waiting, and then drains the terminal's pending input:
 * Ctrl-C stops the client and Space asks the daemon to connect or to
 * disconnect, depending on the mirrored connection state.
 *
 * The daemon connection and the terminal are not modelled: what they deliver
 * during one call is given as two sequences, and whether writing a command
 * fails as a parameter.
 */
module Tui {
  import opened Wrappers
  import opened DaemonStateCodec
  import opened Reconciler

  /** A command the client sends to the daemon. */
  datatype ClientEvent = ConnectVPN | DisconnectVPN

  /** An I/O error other than "would block"; its details do not matter here. */
  datatype IoError = IoError(code: int)

  /** One result of polling the daemon connection. */
  datatype PollResult =
    | Received(param: DataParam)   // a decoded `data` notification
    | WouldBlock                   // nothing more is waiting
    | PollFailed(error: IoError)

  datatype KeyCode = Char(c: char) | OtherCode

  /** A terminal event: a key with whether Control was held, or anything else. */
  datatype TermEvent = Key(code: KeyCode, ctrl: bool) | NonKey

  /** One pending terminal input, or the error that polling or reading it raised. */
  datatype TermInput = Event(event: TermEvent) | TermFailed(error: IoError)

  /** Why `handle_events` returned an error: I/O, or a state document that did not decode. */
  datatype AppError = Io(io: IoError) | Serde(decode: DecodeError)

  /** How a call of `handle_events` ends. */
  datatype Outcome = Finished | Errored(error: AppError) | Panic

  predicate IsCtrlC(e: TermEvent) {
    e.Key? && e.code == Char('c') && e.ctrl
  }

  predicate IsSpaceKey(e: TermEvent) {
    e.Key? && e.code == Char(' ')
  }

  /** The command that Space sends for a mirror, if any. */
  function SpaceCommand(mirror: Option<DaemonState>): (cmd: Option<ClientEvent>)
    ensures cmd == Some(ConnectVPN) <==> mirror.Some? && mirror.value.connectionState == Disconnected
    ensures cmd == Some(DisconnectVPN) <==> mirror.Some? && mirror.value.connectionState == Connected
    ensures cmd == None <==>
              mirror.None? || (mirror.value.connectionState != Disconnected && mirror.value.connectionState != Connected)
  {
    match mirror
    case Some(st) =>
      (match st.connectionState
       case Disconnected => Some(ConnectVPN)
       case Connected => Some(DisconnectVPN)
       case _ => None)
    case None => None
  }

  /** Where draining the daemon connection leaves the mirror, and the outcome if it ended the call. */
  datatype DaemonEnd = DaemonEnd(mirror: Option<DaemonState>, stop: Option<Outcome>)

  /**
   * Draining the daemon connection: notifications are reconciled in order
   * until the connection would block (an exhausted sequence would block too);
   * an I/O error, a decode error or a panic ends the whole call with the
   * mirror as it was before the notification that caused it.
   */
  function DrainDaemon(mirror: Option<DaemonState>, polled: seq<PollResult>): (r: DaemonEnd)
    ensures (mirror.Some? ==> Valid(mirror.value)) ==> (r.mirror.Some? ==> Valid(r.mirror.value))
    ensures r.stop.Some? ==> r.stop.value != Finished
    ensures mirror.Some? ==> r.mirror.Some?
    decreases |polled|
  {
    if polled == [] then DaemonEnd(mirror, None)
    else
      match polled[0]
      case WouldBlock => DaemonEnd(mirror, None)
      case PollFailed(e) => DaemonEnd(mirror, Some(Errored(Io(e))))
      case Received(p) =>
        match Reconcile(mirror, p)
        case Mirror(next) => DrainDaemon(next, polled[1..])
        case Failed(e) => DaemonEnd(mirror, Some(Errored(Serde(e))))
        case Panicked => DaemonEnd(mirror, Some(Panic))
  }

  /** What draining the terminal does: whether the client still runs, what it sent, how the call ends. */
  datatype TerminalEnd = TerminalEnd(running: bool, sent: seq<ClientEvent>, outcome: Outcome)

  /**
   * The outcomes of the writes to the daemon connection, one per command in
   * the order the commands are sent; once they run out, every write succeeds.
   */
  type Writes = seq<Option<IoError>>

  /** The outcome of the next write. */
  function NextWrite(writes: Writes): Option<IoError> {
    if writes == [] then None else writes[0]
  }

  /** The outcomes left after `n` writes. */
  function Drop(writes: Writes, n: nat): (rest: Writes)
    ensures |rest| <= |writes|
  {
    if n < |writes| then writes[n..] else []
  }

  /** Using up `m` outcomes after `n` is using up `n + m`. */
  lemma DropDrop(writes: Writes, n: nat, m: nat)
    ensures Drop(Drop(writes, n), m) == Drop(writes, n + m)
  {
    if n + m < |writes| {
      assert writes[n..][m..] == writes[n + m..];
    }
  }

  /** No planned write fails. */
  predicate NoWriteFailure(writes: Writes) {
    forall i :: 0 <= i < |writes| ==> writes[i].None?
  }

  /**
   * Draining the terminal's pending input with the mirror fixed: Ctrl-C
   * clears the running flag, Space sends the command `SpaceCommand` picks,
   * other input is ignored; an input error or a failed write ends the call.
   */
  function DrainTerminal(mirror: Option<DaemonState>, running: bool, terminal: seq<TermInput>,
                         writes: Writes): (r: TerminalEnd)
    ensures r.running ==> running
    ensures r.outcome != Panic
    ensures |r.sent| <= |terminal|
    decreases |terminal|
  {
    if terminal == [] then TerminalEnd(running, [], Finished)
    else
      match terminal[0]
      case TermFailed(e) => TerminalEnd(running, [], Errored(Io(e)))
      case Event(e) =>
        if IsCtrlC(e) then DrainTerminal(mirror, false, terminal[1..], writes)
        else if IsSpaceKey(e) && SpaceCommand(mirror).Some? then
          if NextWrite(writes).Some? then TerminalEnd(running, [], Errored(Io(NextWrite(writes).value)))
          else
            var rest := DrainTerminal(mirror, running, terminal[1..], Drop(writes, 1));
            TerminalEnd(rest.running, [SpaceCommand(mirror).value] + rest.sent, rest.outcome)
        else DrainTerminal(mirror, running, terminal[1..], writes)
  }

  /**
   * Every command the terminal sends is the one the mirror calls for, and
   * every write it used succeeded.
   */
  lemma {:induction false} DrainTerminalSends(mirror: Option<DaemonState>, running: bool,
                                             terminal: seq<TermInput>, writes: Writes)
    ensures var sent := DrainTerminal(mirror, running, terminal, writes).sent;
            forall i :: 0 <= i < |sent| ==> SpaceCommand(mirror) == Some(sent[i])
    ensures var sent := DrainTerminal(mirror, running, terminal, writes).sent;
            forall i :: 0 <= i < |sent| && i < |writes| ==> writes[i].None?
    decreases |terminal|
  {
    if terminal != [] && terminal[0].Event? {
      var e := terminal[0].event;
      if IsCtrlC(e) {
        QuietStep(mirror, running, terminal, writes);
        DrainTerminalSends(mirror, false, terminal[1..], writes);
      } else if IsSpaceKey(e) && SpaceCommand(mirror).Some? {
        if NextWrite(writes).None? {
          var later := Drop(writes, 1);
          SpaceStep(mirror, running, terminal, writes);
          DrainTerminalSends(mirror, running, terminal[1..], later);
          var rest := DrainTerminal(mirror, running, terminal[1..], later).sent;
          var sent := [SpaceCommand(mirror).value] + rest;
          assert forall i :: 1 <= i < |sent| ==> sent[i] == rest[i - 1];
          assert forall i :: 1 <= i < |sent| && i < |writes| ==> writes[i] == later[i - 1];
        }
      } else {
        QuietStep(mirror, running, terminal, writes);
        DrainTerminalSends(mirror, running, terminal[1..], writes);
      }
    }
  }

  /** A Space that the mirror answers with a command, and whose write succeeds. */
  lemma SpaceStep(mirror: Option<DaemonState>, running: bool, terminal: seq<TermInput>, writes: Writes)
    requires terminal != [] && terminal[0].Event? && IsSpaceKey(terminal[0].event)
    requires SpaceCommand(mirror).Some? && NextWrite(writes).None?
    ensures var rest := DrainTerminal(mirror, running, terminal[1..], Drop(writes, 1));
            DrainTerminal(mirror, running, terminal, writes)
              == TerminalEnd(rest.running, [SpaceCommand(mirror).value] + rest.sent, rest.outcome)
  {
  }

  /** Input other than a Space that sends a command: only Ctrl-C changes anything, the running flag. */
  lemma QuietStep(mirror: Option<DaemonState>, running: bool, terminal: seq<TermInput>, writes: Writes)
    requires terminal != [] && terminal[0].Event?
    requires !(IsSpaceKey(terminal[0].event) && SpaceCommand(mirror).Some?)
    ensures DrainTerminal(mirror, running, terminal, writes)
         == DrainTerminal(mirror, running && !IsCtrlC(terminal[0].event), terminal[1..], writes)
  {
  }

  /** No input error anywhere in the pending terminal input. */
  predicate NoTermFailure(terminal: seq<TermInput>) {
    forall i :: 0 <= i < |terminal| ==> terminal[i].Event?
  }

  function CountSpaces(terminal: seq<TermInput>): nat {
    if terminal == [] then 0
    else (if terminal[0].Event? && IsSpaceKey(terminal[0].event) then 1 else 0) + CountSpaces(terminal[1..])
  }

  predicate HasCtrlC(terminal: seq<TermInput>) {
    exists i :: 0 <= i < |terminal| && terminal[i].Event? && IsCtrlC(terminal[i].event)
  }

  /**
   * When no input fails and no send fails, draining the terminal finishes,
   * the client stops exactly when a Ctrl-C was pending, and one command goes
   * out per Space if the mirror calls for a command at all.
   */
  lemma {:induction false} DrainTerminalWithoutFailures(mirror: Option<DaemonState>, running: bool,
                                                       terminal: seq<TermInput>, writes: Writes)
    requires NoTermFailure(terminal)
    requires NoWriteFailure(writes) || SpaceCommand(mirror).None?
    ensures DrainTerminal(mirror, running, terminal, writes).outcome == Finished
    ensures DrainTerminal(mirror, running, terminal, writes).running <==> running && !HasCtrlC(terminal)
    ensures |DrainTerminal(mirror, running, terminal, writes).sent|
         == if SpaceCommand(mirror).Some? then CountSpaces(terminal) else 0
  {
    if terminal != [] {
      var rest := terminal[1..];
      assert NoTermFailure(rest) by {
        forall i | 0 <= i < |rest| ensures rest[i].Event? {
          assert rest[i] == terminal[i + 1];
        }
      }
      var e := terminal[0].event;
      var sends := !IsCtrlC(e) && IsSpaceKey(e) && SpaceCommand(mirror).Some?;
      var later := if sends then Drop(writes, 1) else writes;
      assert NoWriteFailure(writes) ==> NoWriteFailure(later) by {
        if NoWriteFailure(writes) && sends {
          forall i | 0 <= i < |later| ensures later[i].None? {
            assert later[i] == writes[i + 1];
          }
        }
      }
      DrainTerminalWithoutFailures(mirror, if IsCtrlC(e) then false else running, rest, later);
      assert HasCtrlC(terminal) <==> IsCtrlC(e) || HasCtrlC(rest) by {
        if HasCtrlC(rest) {
          var i :| 0 <= i < |rest| && rest[i].Event? && IsCtrlC(rest[i].event);
          assert terminal[i + 1] == rest[i];
        }
        if HasCtrlC(terminal) && !IsCtrlC(e) {
          var i :| 0 <= i < |terminal| && terminal[i].Event? && IsCtrlC(terminal[i].event);
          assert i != 0;
          assert rest[i - 1] == terminal[i];
        }
      }
    }
  }

  /** The daemon connection is not read past the first "would block". */
  lemma {:induction false} DrainDaemonStopsAtWouldBlock(mirror: Option<DaemonState>, before: seq<PollResult>,
                                                       after: seq<PollResult>)
    ensures DrainDaemon(mirror, before + [WouldBlock] + after) == DrainDaemon(mirror, before + [WouldBlock])
    decreases |before|
  {
    var long, short := before + [WouldBlock] + after, before + [WouldBlock];
    if before == [] {
      assert long[0] == WouldBlock && short[0] == WouldBlock;
    } else {
      assert long[0] == before[0] && short[0] == before[0];
      assert long[1..] == before[1..] + [WouldBlock] + after;
      assert short[1..] == before[1..] + [WouldBlock];
      if before[0].Received? {
        var step := Reconcile(mirror, before[0].param);
        if step.Mirror? {
          DrainDaemonStopsAtWouldBlock(step.mirror, before[1..], after);
          assert DrainDaemon(mirror, long) == DrainDaemon(step.mirror, long[1..]);
          assert DrainDaemon(mirror, short) == DrainDaemon(step.mirror, short[1..]);
        }
      }
    }
  }

  /** Notifications without a state document never change an existing mirror. */
  lemma {:induction false} DrainDaemonWithoutState(mirror: Option<DaemonState>, polled: seq<PollResult>)
    requires mirror.Some?
    requires forall i :: 0 <= i < |polled| && polled[i].Received? ==> polled[i].param.state.None?
    ensures DrainDaemon(mirror, polled).mirror == mirror
    ensures DrainDaemon(mirror, polled).stop.Some? ==> DrainDaemon(mirror, polled).stop.value.Errored?
    ensures DrainDaemon(mirror, polled).stop.Some? ==> DrainDaemon(mirror, polled).stop.value.error.Io?
  {
    if polled != [] && polled[0].Received? {
      assert forall i :: 0 <= i < |polled| - 1 && polled[1..][i].Received? ==> polled[1..][i].param.state.None? by {
        forall i | 0 <= i < |polled| - 1 && polled[1..][i].Received?
          ensures polled[1..][i].param.state.None?
        {
          assert polled[1..][i] == polled[i + 1];
        }
      }
      DrainDaemonWithoutState(mirror, polled[1..]);
    }
  }

  /**
   * Draining the daemon connection in two pieces: when the first piece holds
   * only notifications and ends no call, the second piece is drained from the
   * mirror the first one left.
   */
  lemma {:induction false} DrainDaemonAppend(mirror: Option<DaemonState>, before: seq<PollResult>,
                                            after: seq<PollResult>)
    requires forall i :: 0 <= i < |before| ==> before[i].Received?
    requires DrainDaemon(mirror, before).stop.None?
    ensures DrainDaemon(mirror, before + after) == DrainDaemon(DrainDaemon(mirror, before).mirror, after)
    decreases |before|
  {
    if before == [] {
      assert before + after == after;
    } else {
      ReceivedStepAppend(mirror, before, after);
      var next := Reconcile(mirror, before[0].param).mirror;
      assert forall i :: 0 <= i < |before| - 1 ==> before[1..][i] == before[i + 1];
      DrainDaemonAppend(next, before[1..], after);
    }
  }

  /** The first notification of `before` goes on to the rest, with or without `after`. */
  lemma ReceivedStepAppend(mirror: Option<DaemonState>, before: seq<PollResult>, after: seq<PollResult>)
    requires before != [] && before[0].Received?
    requires DrainDaemon(mirror, before).stop.None?
    ensures Reconcile(mirror, before[0].param).Mirror?
    ensures var next := Reconcile(mirror, before[0].param).mirror;
            DrainDaemon(mirror, before) == DrainDaemon(next, before[1..]) &&
            DrainDaemon(mirror, before + after) == DrainDaemon(next, before[1..] + after)
  {
    var whole := before + after;
    assert whole[0] == before[0] && whole[1..] == before[1..] + after;
    ReceivedStep(mirror, before);
    ReceivedStep(mirror, whole);
  }

  /** A notification that does not end the call hands its mirror on to the rest of the drain. */
  lemma ReceivedStep(mirror: Option<DaemonState>, polled: seq<PollResult>)
    requires polled != [] && polled[0].Received?
    ensures var step := Reconcile(mirror, polled[0].param);
            if step.Mirror? then DrainDaemon(mirror, polled) == DrainDaemon(step.mirror, polled[1..])
            else DrainDaemon(mirror, polled).stop.Some?
  {
  }

  /**
   * `DrainDaemon` as the source is written, reconciling through
   * `ReconcileAsWritten`: a client that starts without a mirror never gets
   * one.
   */
  function DrainDaemonAsWritten(mirror: Option<DaemonState>, polled: seq<PollResult>): (r: DaemonEnd)
    ensures mirror.None? ==> r.mirror.None?
    ensures r.stop.Some? ==> r.stop.value != Finished
    decreases |polled|
  {
    if polled == [] then DaemonEnd(mirror, None)
    else
      match polled[0]
      case WouldBlock => DaemonEnd(mirror, None)
      case PollFailed(e) => DaemonEnd(mirror, Some(Errored(Io(e))))
      case Received(p) =>
        match ReconcileAsWritten(mirror, p)
        case Mirror(next) => DrainDaemonAsWritten(next, polled[1..])
        case Failed(e) => DaemonEnd(mirror, Some(Errored(Serde(e))))
        case Panicked => DaemonEnd(mirror, Some(Panic))
  }

  /**
   * As written, the first notification with a state document, even one the
   * intended decoder accepts, ends the call with a decode error and leaves the
   * client without a mirror.
   */
  lemma AsWrittenRefusesFirstDocument(p: DataParam, rest: seq<PollResult>)
    requires p.state.Some? && Decode(p.state.value).Ok?
    ensures DrainDaemonAsWritten(None, [Received(p)] + rest) == DaemonEnd(None, Some(Errored(Serde(InvalidValue))))
  {
    KeySets();
    var polled := [Received(p)] + rest;
    assert polled[0] == Received(p);
    assert ExternalIpKey in p.state.value;
  }

  /**
   * With the intended decoder, the first notification whose state document
   * decodes sets the mirror to the decoded state, and draining goes on from
   * there.
   */
  lemma FirstDocumentSetsMirror(p: DataParam, rest: seq<PollResult>)
    requires p.state.Some? && Decode(p.state.value).Ok?
    ensures DrainDaemon(None, [Received(p)] + rest) == DrainDaemon(Some(Decode(p.state.value).value), rest)
    ensures DrainDaemon(None, [Received(p)] + rest).mirror.Some?
  {
    var polled := [Received(p)] + rest;
    assert polled[0] == Received(p) && polled[1..] == rest;
  }

  /**
   * A poll error after notifications that ended no call ends the call with
   * that error; the mirror is the one those notifications left.
   */
  lemma PollFailureEndsCall(mirror: Option<DaemonState>, before: seq<PollResult>, e: IoError,
                            after: seq<PollResult>)
    requires forall i :: 0 <= i < |before| ==> before[i].Received?
    requires DrainDaemon(mirror, before).stop.None?
    ensures DrainDaemon(mirror, before + [PollFailed(e)] + after)
         == DaemonEnd(DrainDaemon(mirror, before).mirror, Some(Errored(Io(e))))
  {
    var tail := [PollFailed(e)] + after;
    assert before + [PollFailed(e)] + after == before + tail;
    DrainDaemonAppend(mirror, before, tail);
    PollFailedStep(DrainDaemon(mirror, before).mirror, tail);
  }

  /** A poll error ends the call at once. */
  lemma PollFailedStep(mirror: Option<DaemonState>, polled: seq<PollResult>)
    requires polled != [] && polled[0].PollFailed?
    ensures DrainDaemon(mirror, polled) == DaemonEnd(mirror, Some(Errored(Io(polled[0].error))))
  {
  }

  /**
   * A notification whose state document does not decode, after notifications
   * that ended no call, ends the call with the decode error and keeps the
   * mirror as it was before that notification.
   */
  lemma DecodeFailureEndsCall(mirror: Option<DaemonState>, before: seq<PollResult>, p: DataParam,
                              after: seq<PollResult>)
    requires forall i :: 0 <= i < |before| ==> before[i].Received?
    requires DrainDaemon(mirror, before).stop.None?
    requires Reconcile(DrainDaemon(mirror, before).mirror, p).Failed?
    ensures var m := DrainDaemon(mirror, before).mirror;
            DrainDaemon(mirror, before + [Received(p)] + after)
              == DaemonEnd(m, Some(Errored(Serde(Reconcile(m, p).error))))
  {
    assert before + [Received(p)] + after == before + ([Received(p)] + after);
    DrainDaemonAppend(mirror, before, [Received(p)] + after);
  }
  /**
   * A notification whose reconciliation panics (no state document before
   * there is a mirror, or an update key that is not a field) ends the call
   * with a panic and leaves the mirror as it was.
   */
  lemma PanicEndsCall(mirror: Option<DaemonState>, before: seq<PollResult>, p: DataParam,
                      after: seq<PollResult>)
    requires forall i :: 0 <= i < |before| ==> before[i].Received?
    requires DrainDaemon(mirror, before).stop.None?
    requires Reconcile(DrainDaemon(mirror, before).mirror, p).Panicked?
    ensures DrainDaemon(mirror, before + [Received(p)] + after)
         == DaemonEnd(DrainDaemon(mirror, before).mirror, Some(Panic))
  {
    assert before + [Received(p)] + after == before + ([Received(p)] + after);
    DrainDaemonAppend(mirror, before, [Received(p)] + after);
  }


  /**
   * Draining the terminal in two pieces: when the first piece finishes, the
   * second is drained with the running flag the first left and the write
   * outcomes its commands did not use.
   */
  lemma {:induction false} DrainTerminalAppend(mirror: Option<DaemonState>, running: bool,
                                              pre: seq<TermInput>, post: seq<TermInput>, writes: Writes)
    requires DrainTerminal(mirror, running, pre, writes).outcome == Finished
    ensures var first := DrainTerminal(mirror, running, pre, writes);
            var second := DrainTerminal(mirror, first.running, post, Drop(writes, |first.sent|));
            DrainTerminal(mirror, running, pre + post, writes)
              == TerminalEnd(second.running, first.sent + second.sent, second.outcome)
    decreases |pre|, 1
  {
    if pre == [] {
      assert pre + post == post;
      assert Drop(writes, 0) == writes;
    } else {
      var whole := pre + post;
      assert whole[0] == pre[0] && whole[1..] == pre[1..] + post;
      var e := pre[0].event;
      if IsCtrlC(e) {
        DrainTerminalAppend(mirror, false, pre[1..], post, writes);
      } else if IsSpaceKey(e) && SpaceCommand(mirror).Some? {
        // a failed first write would have ended `pre` with an error
        assert NextWrite(writes).None?;
        SpaceThenAppend(mirror, running, pre, post, writes);
      } else {
        DrainTerminalAppend(mirror, running, pre[1..], post, writes);
      }
    }
  }

  /** `DrainTerminalAppend` when the first piece starts with a Space that sends a command. */
  lemma {:induction false} SpaceThenAppend(mirror: Option<DaemonState>, running: bool,
                                          pre: seq<TermInput>, post: seq<TermInput>, writes: Writes)
    requires pre != [] && pre[0].Event? && IsSpaceKey(pre[0].event)
    requires SpaceCommand(mirror).Some? && NextWrite(writes).None?
    requires DrainTerminal(mirror, running, pre, writes).outcome == Finished
    ensures var first := DrainTerminal(mirror, running, pre, writes);
            var second := DrainTerminal(mirror, first.running, post, Drop(writes, |first.sent|));
            DrainTerminal(mirror, running, pre + post, writes)
              == TerminalEnd(second.running, first.sent + second.sent, second.outcome)
    decreases |pre|, 0
  {
    var cmd, later := SpaceCommand(mirror).value, Drop(writes, 1);
    SpaceStep(mirror, running, pre, writes);
    var rest := DrainTerminal(mirror, running, pre[1..], later);
    DrainTerminalAppend(mirror, running, pre[1..], post, later);
    SpaceOnAppend(mirror, running, pre, post, writes);
    DropDrop(writes, 1, |rest.sent|);
    JoinEnds(cmd, DrainTerminal(mirror, running, pre, writes), rest,
             DrainTerminal(mirror, rest.running, post, Drop(later, |rest.sent|)),
             DrainTerminal(mirror, running, pre + post, writes),
             DrainTerminal(mirror, running, pre[1..] + post, later));
  }

  /** How the ends of the pieces of `SpaceThenAppend` fit together. */
  lemma JoinEnds(cmd: ClientEvent, first: TerminalEnd, rest: TerminalEnd, second: TerminalEnd,
                 whole: TerminalEnd, wholeRest: TerminalEnd)
    requires first == TerminalEnd(rest.running, [cmd] + rest.sent, rest.outcome)
    requires whole == TerminalEnd(wholeRest.running, [cmd] + wholeRest.sent, wholeRest.outcome)
    requires wholeRest == TerminalEnd(second.running, rest.sent + second.sent, second.outcome)
    ensures first.running == rest.running && |first.sent| == 1 + |rest.sent|
    ensures whole == TerminalEnd(second.running, first.sent + second.sent, second.outcome)
  {
    assert ([cmd] + rest.sent) + second.sent == [cmd] + (rest.sent + second.sent);
  }

  /** `SpaceStep` on input that continues past `pre`. */
  lemma SpaceOnAppend(mirror: Option<DaemonState>, running: bool,
                      pre: seq<TermInput>, post: seq<TermInput>, writes: Writes)
    requires pre != [] && pre[0].Event? && IsSpaceKey(pre[0].event)
    requires SpaceCommand(mirror).Some? && NextWrite(writes).None?
    ensures var rest := DrainTerminal(mirror, running, pre[1..] + post, Drop(writes, 1));
            DrainTerminal(mirror, running, pre + post, writes)
              == TerminalEnd(rest.running, [SpaceCommand(mirror).value] + rest.sent, rest.outcome)
  {
    var whole := pre + post;
    assert whole[0] == pre[0] && whole[1..] == pre[1..] + post;
    SpaceStep(mirror, running, whole, writes);
  }

  /**
   * An input error after input that finished ends the call with that error;
   * what the earlier input did stays done.
   */
  lemma InputFailureEndsCall(mirror: Option<DaemonState>, running: bool, pre: seq<TermInput>, e: IoError,
                             post: seq<TermInput>, writes: Writes)
    requires DrainTerminal(mirror, running, pre, writes).outcome == Finished
    ensures var first := DrainTerminal(mirror, running, pre, writes);
            DrainTerminal(mirror, running, pre + [TermFailed(e)] + post, writes)
              == TerminalEnd(first.running, first.sent, Errored(Io(e)))
  {
    assert pre + [TermFailed(e)] + post == pre + ([TermFailed(e)] + post);
    DrainTerminalAppend(mirror, running, pre, [TermFailed(e)] + post, writes);
    assert DrainTerminal(mirror, running, pre, writes).sent + [] == DrainTerminal(mirror, running, pre, writes).sent;
  }

  /**
   * A Space whose write fails, after input that finished, ends the call with
   * the write's error: the commands before it were sent, this one was not.
   */
  lemma WriteFailureEndsCall(mirror: Option<DaemonState>, running: bool, pre: seq<TermInput>, ctrl: bool,
                             post: seq<TermInput>, writes: Writes)
    requires DrainTerminal(mirror, running, pre, writes).outcome == Finished
    requires SpaceCommand(mirror).Some?
    requires NextWrite(Drop(writes, |DrainTerminal(mirror, running, pre, writes).sent|)).Some?
    ensures var first := DrainTerminal(mirror, running, pre, writes);
            var failure := NextWrite(Drop(writes, |first.sent|)).value;
            DrainTerminal(mirror, running, pre + [Event(Key(Char(' '), ctrl))] + post, writes)
              == TerminalEnd(first.running, first.sent, Errored(Io(failure)))
  {
    var space := [Event(Key(Char(' '), ctrl))];
    assert pre + space + post == pre + (space + post);
    DrainTerminalAppend(mirror, running, pre, space + post, writes);
    assert DrainTerminal(mirror, running, pre, writes).sent + [] == DrainTerminal(mirror, running, pre, writes).sent;
  }

  class App {
    var isRunning: bool
    var state: Option<DaemonState>
    /** The commands written to the daemon connection, oldest first. */
    var sent: seq<ClientEvent>

    /** A mirror, once there is one, is a state some document decoded to. */
    ghost predicate Valid()
      reads this
    {
      state.Some? ==> DaemonStateCodec.Valid(state.value)
    }

    /** `App::default`: running, with no mirror yet and nothing sent. */
    constructor ()
      ensures Valid()
      ensures isRunning && state == None && sent == []
    {
      isRunning := true;
      state := None;
      sent := [];
    }

    /** `conn.send`: writes the command unless the connection's write fails. */
    method Send(event: ClientEvent, writeFailure: Option<IoError>) returns (ok: bool)
      modifies this`sent
      ensures ok <==> writeFailure.None?
      ensures sent == if ok then old(sent) + [event] else old(sent)
    {
      ok := writeFailure.None?;
      if ok {
        sent := sent + [event];
      }
    }

    /**
     * One `data` notification in `handle_events`: the first state document
     * is decoded into the mirror; a later one is merged into the serialized
     * mirror, key by key, and the result decoded again.
     */
    method Receive(p: DataParam) returns (step: Step)
      requires Valid()
      modifies this`state
      ensures Valid()
      ensures step == Reconcile(old(state), p)
      ensures state == if step.Mirror? then step.mirror else old(state)
    {
      match state {
        case None =>
          if p.state.None? {
            return Panicked;
          }
          var decoded := Decode(p.state.value);
          if decoded.Err? {
            return Failed(decoded.error);
          }
          state := Some(decoded.value);
        case Some(st) =>
          if p.state.Some? {
            var merged := MergeInto(Encode(st), p.state.value);
            if merged.None? {
              return Panicked;
            }
            var decoded := Decode(merged.value);
            if decoded.Err? {
              return Failed(decoded.error);
            }
            state := Some(decoded.value);
          }
      }
      step := Mirror(state);
    }

    /**
     * The first half of `handle_events`: notifications are taken from the
     * daemon connection until it would block; an error or a panic ends the
     * call there.
     */
    method DrainConnection(polled: seq<PollResult>) returns (stop: Option<Outcome>)
      requires Valid()
      modifies this`state
      ensures Valid()
      ensures state == DrainDaemon(old(state), polled).mirror
      ensures stop == DrainDaemon(old(state), polled).stop
    {
      var i := 0;
      while i < |polled| && !polled[i].WouldBlock?
        invariant 0 <= i <= |polled|
        invariant Valid()
        invariant DrainDaemon(state, polled[i..]) == DrainDaemon(old(state), polled)
        decreases |polled| - i
      {
        assert polled[i..][1..] == polled[i + 1..];
        match polled[i] {
          case PollFailed(e) =>
            return Some(Errored(Io(e)));
          case Received(p) =>
            var step := Receive(p);
            if step.Failed? {
              return Some(Errored(Serde(step.error)));
            } else if step.Panicked? {
              return Some(Panic);
            }
        }
        i := i + 1;
      }
      stop := None;
    }

    /**
     * Space: ask the daemon to connect when the mirror says it is
     * disconnected, to disconnect when it says it is connected, and do
     * nothing otherwise; `false` when the write failed.
     */
    method PressSpace(writeFailure: Option<IoError>) returns (ok: bool)
      modifies this`sent
      ensures SpaceCommand(state).None? ==> ok && sent == old(sent)
      ensures SpaceCommand(state).Some? ==>
                (ok <==> writeFailure.None?) &&
                sent == if ok then old(sent) + [SpaceCommand(state).value] else old(sent)
    {
      match state {
        case Some(DaemonState(Disconnected, _, _, _)) =>
          ok := Send(ConnectVPN, writeFailure);
        case Some(DaemonState(Connected, _, _, _)) =>
          ok := Send(DisconnectVPN, writeFailure);
        case _ =>
          ok := true;
      }
    }

    /**
     * One pass of the terminal loop: read the next pending input and act on
     * it. `used` is how many write outcomes it used up; when it ends the call,
     * `stop` is how.
     */
    method ReadInput(pending: seq<TermInput>, writes: Writes) returns (stop: Option<Outcome>, used: nat)
      requires pending != []
      modifies this`isRunning, this`sent
      ensures var whole := DrainTerminal(state, old(isRunning), pending, writes);
              stop.Some? ==> stop.value == whole.outcome && isRunning == whole.running && sent == old(sent) + whole.sent
      ensures var whole := DrainTerminal(state, old(isRunning), pending, writes);
              var rest := DrainTerminal(state, isRunning, pending[1..], Drop(writes, used));
              stop.None? ==> whole.running == rest.running && whole.outcome == rest.outcome &&
                             old(sent) + whole.sent == sent + rest.sent
    {
      stop, used := None, 0;
      match pending[0] {
        case TermFailed(e) =>
          stop := Some(Errored(Io(e)));
        case Event(e) =>
          if IsCtrlC(e) {
            QuietStep(state, isRunning, pending, writes);
            isRunning := false;
          } else if IsSpaceKey(e) {
            var w := NextWrite(writes);
            var ok := PressSpace(w);
            if !ok {
              stop := Some(Errored(Io(w.value)));
            } else if SpaceCommand(state).Some? {
              SpaceStep(state, isRunning, pending, writes);
              used := 1;
            } else {
              QuietStep(state, isRunning, pending, writes);
            }
          } else {
            QuietStep(state, isRunning, pending, writes);
          }
      }
    }

    /**
     * The second half of `handle_events`: every pending terminal input is
     * read; Ctrl-C clears the running flag and Space sends the command the
     * mirrored connection state calls for. Each command sent uses up the next
     * write outcome.
     */
    method DrainInput(terminal: seq<TermInput>, writes: Writes) returns (r: Outcome)
      modifies this`isRunning, this`sent
      ensures var t := DrainTerminal(state, old(isRunning), terminal, writes);
              isRunning == t.running && sent == old(sent) + t.sent && r == t.outcome
    {
      ghost var whole := DrainTerminal(state, isRunning, terminal, writes);
      var pending, unused := terminal, writes;
      while pending != []
        invariant var rest := DrainTerminal(state, isRunning, pending, unused);
                  whole.running == rest.running && whole.outcome == rest.outcome &&
                  old(sent) + whole.sent == sent + rest.sent
        decreases |pending|
      {
        var stop, used := ReadInput(pending, unused);
        if stop.Some? {
          return stop.value;
        }
        pending, unused := pending[1..], Drop(unused, used);
      }
      r := Finished;
    }

    /** `handle_events`, one call: drain the daemon connection, then the terminal. */
    method HandleEvents(polled: seq<PollResult>, terminal: seq<TermInput>, writes: Writes)
      returns (r: Outcome)
      requires Valid()
      modifies this
      ensures Valid()
      ensures state == DrainDaemon(old(state), polled).mirror
      ensures DrainDaemon(old(state), polled).stop.Some? ==>
                r == DrainDaemon(old(state), polled).stop.value && isRunning == old(isRunning) && sent == old(sent)
      ensures DrainDaemon(old(state), polled).stop.None? ==>
                var t := DrainTerminal(state, old(isRunning), terminal, writes);
                isRunning == t.running && sent == old(sent) + t.sent && r == t.outcome
    {
      var stop := DrainConnection(polled);
      if stop.Some? {
        return stop.value;
      }
      r := DrainInput(terminal, writes);
    }
  }
}

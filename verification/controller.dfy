/**
 The main loop of the program as a state machine. `state` 0, 1 and 2 of the
 source are `Browse`, `Password` and `Connect`; leaving the loop is `Done`.
 One `Step` is one iteration of the loop. Terminal input, the listing command
 and the connect command are oracles carried by each `Input`.
 */
module Controller {
  import opened Listing
  import opened Navigation
  import opened Connector

  /** One attempt to read the next event: `events.next()` gave `Some(Ok(evt))`,
      or it gave nothing usable (end of input or a read error). */
  datatype Read = Got(evt: Event) | NoEvent

  /** Result of running the listing command: its text, or a failure to start it. */
  datatype Scan = Listed(text: string) | ScanFailed

  /** Why the loop ended. `ScanError` is `main` returning the I/O error of a
      refresh; `Panicked` is one of the source's panics (see `Step`). */
  datatype Exit = UserQuit | Finished(result: AuthResult) | ScanError | Panicked

  datatype Phase = Browse | Password | Connect | Done(exit: Exit)

  /** The loop's variables: `state`, `selector_pos`, `wifi_list`, `ssid`, `pwd`. */
  datatype Session = Session(phase: Phase, pos: u8, list: string, ssid: string, pwd: string)

  /** What the world offers to one iteration: the event read (if the iteration
      reads one), the listing a refresh would get, and the connect command. */
  datatype Input = Input(read: Read, scan: Scan, nmcli: seq<string> -> ProcessResult)

  /** The outside calls of one iteration: none, one refresh (scan and redraw),
      or one `authenticate` with its argument vector. */
  datatype Effect = Quiet | Refreshed | Authenticated(args: seq<string>)

  datatype Transition = Transition(next: Session, effect: Effect)

  /** The session right after the first `refresh` (line 46). */
  function Start(scan: Scan): (s: Session)
    ensures scan.Listed? <==> s.phase == Browse
    ensures scan.Listed? ==> s.list == scan.text && s.pos == 0 && s.pwd == ""
    ensures scan.ScanFailed? ==> s.phase == Done(ScanError)
  {
    match scan
    case Listed(text) => Session(Browse, 0, text, "", "")
    case ScanFailed => Session(Done(ScanError), 0, "", "", "")
  }

  /** `match_evt` can be evaluated without an arithmetic panic. */
  predicate KeyDefined(evt: Event, list: string, pos: u8)
  {
    evt == KeyPress(Down) ==> DownDefined(pos, DataCount(list))
  }

  /** `get_ssids(&wifi_list)[selector_pos]` (line 62) can be evaluated: every
      data line reaches column 8 and the position indexes a data line. */
  predicate SelectDefined(list: string, pos: u8)
  {
    Parsable(list) && pos < DataCount(list)
  }

  /** State 0: read one event, let `match_evt` move the marker, then refresh,
      select or quit. A read that yields nothing leaves everything unchanged. */
  function BrowseStep(s: Session, input: Input): Transition
    requires s.phase == Browse
  {
    match input.read
    case NoEvent => Transition(s, Quiet)
    case Got(evt) =>
      if !KeyDefined(evt, s.list, s.pos) then Transition(s.(phase := Done(Panicked)), Quiet)
      else
        var m := MatchEvt(evt, s.list, s.pos);
        var s' := s.(pos := m.pos);
        match m.response
        case Continue =>
          (match input.scan
           case Listed(text) => Transition(s'.(list := text), Refreshed)
           case ScanFailed => Transition(s'.(phase := Done(ScanError)), Refreshed))
        case Select =>
          if SelectDefined(s.list, m.pos) then
            Transition(s'.(phase := Password, ssid := GetSsids(s.list)[m.pos]), Quiet)
          else
            Transition(s'.(phase := Done(Panicked)), Quiet)
        case Quit => Transition(s'.(phase := Done(UserQuit)), Quiet)
  }

  /** State 1: Esc leaves, Enter goes on to connecting, any other character is
      appended to the password; other events and empty reads change nothing. */
  function PasswordStep(s: Session, input: Input): Transition
    requires s.phase == Password
  {
    match input.read
    case Got(KeyPress(Esc)) => Transition(s.(phase := Done(UserQuit)), Quiet)
    case Got(KeyPress(Char(c))) =>
      if c == '\n' then Transition(s.(phase := Connect), Quiet)
      else Transition(s.(pwd := s.pwd + [c]), Quiet)
    case _ => Transition(s, Quiet)
  }

  /** One iteration of the loop in `main`. */
  function Step(s: Session, input: Input): (t: Transition)
    // the loop has ended: nothing more is read or called
    ensures s.phase.Done? ==> t == Transition(s, Quiet)
    // a read that yields nothing changes nothing
    ensures (s.phase == Browse || s.phase == Password) && input.read == NoEvent ==> t == Transition(s, Quiet)
    // `authenticate` is called exactly from state 2, with the exact argument vector,
    // and the loop always ends right after it
    ensures t.effect.Authenticated? <==> s.phase == Connect
    ensures s.phase == Connect ==>
      && t.effect == Authenticated(ConnectArgs(s.ssid, s.pwd))
      && t.next == s.(phase := Done(Finished(Authenticate(s.ssid, s.pwd, input.nmcli))))
    // a refresh happens only in state 0 and replaces the list with the scan
    ensures t.effect == Refreshed ==> s.phase == Browse && input.read.Got?
    ensures t.effect == Refreshed && input.scan.Listed? ==> t.next.phase == Browse && t.next.list == input.scan.text
    // `q` in state 0 quits without calling anything
    ensures s.phase == Browse && input.read == Got(KeyPress(Char('q'))) ==>
      t == Transition(s.(phase := Done(UserQuit)), Quiet)
    // Enter in state 0 captures the highlighted identifier
    ensures s.phase == Browse && input.read == Got(KeyPress(Char('\n'))) && SelectDefined(s.list, s.pos) ==>
      t.next.phase == Password && t.next.ssid == GetSsids(s.list)[s.pos] && t.effect == Quiet
    // every other key in state 0 (except an undefined Down) refreshes
    ensures s.phase == Browse && input.read.Got? && KeyDefined(input.read.evt, s.list, s.pos)
            && input.read.evt != KeyPress(Char('q')) && input.read.evt != KeyPress(Char('\n')) ==>
      t.effect == Refreshed && t.next.pos == MatchEvt(input.read.evt, s.list, s.pos).pos
    // state 1: Esc quits and Enter moves on, both leaving the password as typed
    ensures s.phase == Password && input.read == Got(KeyPress(Esc)) ==> t.next == s.(phase := Done(UserQuit))
    ensures s.phase == Password && input.read == Got(KeyPress(Char('\n'))) ==> t.next == s.(phase := Connect)
    ensures s.phase == Password && input.read.Got? && input.read.evt.KeyPress? && input.read.evt.key.Char?
            && input.read.evt.key.c != '\n' ==>
      t.next == s.(pwd := s.pwd + [input.read.evt.key.c])
    // the selected identifier and the password change only on entering and
    // inside state 1 respectively
    ensures s.phase != Browse ==> t.next.ssid == s.ssid
    ensures s.phase != Password ==> t.next.pwd == s.pwd
    // a refresh whose scan cannot be run ends the program with that error
    ensures t.effect == Refreshed && input.scan.ScanFailed? ==> t.next.phase == Done(ScanError)
    // Down with u8 arithmetic out of range panics in `match_evt`
    ensures s.phase == Browse && input.read.Got? && !KeyDefined(input.read.evt, s.list, s.pos) ==>
      t == Transition(s.(phase := Done(Panicked)), Quiet)
    // Enter on a short data line or a position past the identifiers panics
    ensures s.phase == Browse && input.read == Got(KeyPress(Char('\n'))) && !SelectDefined(s.list, s.pos) ==>
      t.next.phase == Done(Panicked) && t.effect == Quiet
    // panics come only from `match_evt` or line 62 in state 0
    ensures t.next.phase == Done(Panicked) ==>
      s.phase == Done(Panicked) ||
      (s.phase == Browse && input.read.Got? &&
       (!KeyDefined(input.read.evt, s.list, s.pos) || input.read.evt == KeyPress(Char('\n'))))
  {
    match s.phase
    case Browse => BrowseStep(s, input)
    case Password => PasswordStep(s, input)
    case Connect =>
      var result := Authenticate(s.ssid, s.pwd, input.nmcli);
      Transition(s.(phase := Done(Finished(result))), Authenticated(ConnectArgs(s.ssid, s.pwd)))
    case Done(_) => Transition(s, Quiet)
  }

  /** Number of `authenticate` calls in a trace. */
  function AuthCount(trace: seq<Effect>): nat
  {
    if |trace| == 0 then 0
    else (if trace[0].Authenticated? then 1 else 0) + AuthCount(trace[1..])
  }

  datatype Outcome = Outcome(last: Session, trace: seq<Effect>)

  /** Runs one loop iteration per input. */
  function Run(s: Session, inputs: seq<Input>): (o: Outcome)
    ensures |o.trace| == |inputs|
    ensures s.phase.Done? ==> o.last == s && AuthCount(o.trace) == 0
    // `authenticate` is called at most once per session ...
    ensures AuthCount(o.trace) <= 1
    // ... and, from a live loop, exactly when the session ends with its result
    ensures !s.phase.Done? ==> (AuthCount(o.trace) == 1 <==> o.last.phase.Done? && o.last.phase.exit.Finished?)
    // a quit never follows a connect attempt
    ensures o.last.phase == Done(UserQuit) ==> AuthCount(o.trace) == 0
    decreases |inputs|
  {
    if |inputs| == 0 then Outcome(s, [])
    else
      var t := Step(s, inputs[0]);
      var o := Run(t.next, inputs[1..]);
      var trace := [t.effect] + o.trace;
      assert trace[1..] == o.trace;
      Outcome(o.last, trace)
  }

  /** The loop driven by an arbitrary iteration function; `Run` is this loop
      driven by `Step`. */
  function Iterate(step: (Session, Input) -> Transition, s: Session, inputs: seq<Input>): Outcome
    decreases |inputs|
  {
    if |inputs| == 0 then Outcome(s, [])
    else
      var t := step(s, inputs[0]);
      var o := Iterate(step, t.next, inputs[1..]);
      Outcome(o.last, [t.effect] + o.trace)
  }

  /** Running `a + b` runs `a`, then `b` from where `a` stopped, for any
      iteration function. */
  lemma {:induction false} IterateAppend(step: (Session, Input) -> Transition, s: Session, a: seq<Input>, b: seq<Input>)
    ensures Iterate(step, s, a + b).last == Iterate(step, Iterate(step, s, a).last, b).last
    ensures Iterate(step, s, a + b).trace == Iterate(step, s, a).trace + Iterate(step, Iterate(step, s, a).last, b).trace
    decreases |a|
  {
    if |a| == 0 {
      assert a + b == b;
    } else {
      IterateAppend(step, step(s, a[0]).next, a[1..], b);
      assert (a + b)[0] == a[0];
      assert (a + b)[1..] == a[1..] + b;
    }
  }

  /** `Run` is `Iterate` with `Step`. */
  lemma {:induction false} RunIsIterate(s: Session, inputs: seq<Input>)
    ensures Run(s, inputs) == Iterate(Step, s, inputs)
    decreases |inputs|
  {
    if |inputs| > 0 {
      RunIsIterate(Step(s, inputs[0]).next, inputs[1..]);
    }
  }

  /** A run over `a + b` is the run over `a` followed by the run over `b`. */
  lemma RunAppend(s: Session, a: seq<Input>, b: seq<Input>)
    ensures Run(s, a + b).last == Run(Run(s, a).last, b).last
    ensures Run(s, a + b).trace == Run(s, a).trace + Run(Run(s, a).last, b).trace
  {
    RunIsIterate(s, a + b);
    RunIsIterate(s, a);
    RunIsIterate(Run(s, a).last, b);
    IterateAppend(Step, s, a, b);
  }

  /** The characters a run of reads types into the password prompt. */
  function Typed(inputs: seq<Input>): string
  {
    if |inputs| == 0 then ""
    else
      var rest := Typed(inputs[1..]);
      match inputs[0].read
      case Got(KeyPress(Char(c))) => [c] + rest
      case _ => rest
  }

  /** A read that neither ends nor confirms the password prompt. */
  predicate KeepsTyping(input: Input)
  {
    input.read != Got(KeyPress(Esc)) && input.read != Got(KeyPress(Char('\n')))
  }

  /** In the password prompt, every character other than Enter is appended as
      typed (`q` and `r` included), in order, and nothing else changes. */
  lemma {:induction false} PasswordIsTypedText(s: Session, inputs: seq<Input>)
    requires s.phase == Password
    requires forall i :: 0 <= i < |inputs| ==> KeepsTyping(inputs[i])
    ensures Run(s, inputs).last == s.(pwd := s.pwd + Typed(inputs))
    ensures AuthCount(Run(s, inputs).trace) == 0
    decreases |inputs|
  {
    if |inputs| == 0 {
      assert s.pwd + "" == s.pwd;
    } else {
      var t := Step(s, inputs[0]);
      assert t.effect == Quiet;
      PasswordIsTypedText(t.next, inputs[1..]);
      match inputs[0].read
      case Got(KeyPress(Char(c))) =>
        assert t.next == s.(pwd := s.pwd + [c]);
        assert s.pwd + Typed(inputs) == (s.pwd + [c]) + Typed(inputs[1..]);
      case _ =>
    }
  }

  /** Enter in the prompt leads to exactly one `authenticate(ssid, pwd)` on the
      next iteration, after which the loop has ended for good. */
  lemma ConfirmConnectsOnce(s: Session, inputs: seq<Input>)
    requires s.phase == Password
    requires |inputs| >= 2 && inputs[0].read == Got(KeyPress(Char('\n')))
    ensures Run(s, inputs).last == s.(phase := Done(Finished(Authenticate(s.ssid, s.pwd, inputs[1].nmcli))))
    ensures AuthCount(Run(s, inputs).trace) == 1
    ensures Run(s, inputs).trace[1] == Authenticated(ConnectArgs(s.ssid, s.pwd))
  {
  }

  /** The state the loop needs to stay clear of panics in state 0: the list has
      between 1 and 255 parsable data lines and the marker indexes one of them. */
  predicate SelectionValid(s: Session)
  {
    s.phase == Browse ==>
      && 1 <= DataCount(s.list) <= 255
      && Parsable(s.list)
      && s.pos < DataCount(s.list)
  }

  /** The listing a refresh would install (if this iteration refreshes) is
      well formed and has no fewer data lines than the current one. */
  predicate ScanDoesNotShrink(s: Session, input: Input)
  {
    s.phase == Browse && input.scan.Listed? ==>
      && DataCount(s.list) <= DataCount(input.scan.text) <= 255
      && Parsable(input.scan.text)
  }

  /** `ScanDoesNotShrink` at every iteration of a run. */
  predicate ScansNeverShrink(s: Session, inputs: seq<Input>)
    decreases |inputs|
  {
    |inputs| == 0 ||
    (ScanDoesNotShrink(s, inputs[0]) && ScansNeverShrink(Step(s, inputs[0]).next, inputs[1..]))
  }

  /** `selector_pos` is not re-clamped after a refresh, so it keeps indexing the
      list only while refreshes do not shrink it. */
  lemma BrowseKeepsSelection(s: Session, input: Input)
    requires s.phase != Done(Panicked)
    requires SelectionValid(s)
    requires ScanDoesNotShrink(s, input)
    ensures SelectionValid(Step(s, input).next)
    ensures Step(s, input).next.phase != Done(Panicked)
  {
  }

  /** Over a whole run: as long as no refresh shrinks the list, the selection
      stays valid and the loop never panics. */
  lemma {:induction false} NoPanicWhileScansDoNotShrink(s: Session, inputs: seq<Input>)
    requires s.phase != Done(Panicked)
    requires SelectionValid(s)
    requires ScansNeverShrink(s, inputs)
    ensures SelectionValid(Run(s, inputs).last)
    ensures Run(s, inputs).last.phase != Done(Panicked)
    decreases |inputs|
  {
    if |inputs| > 0 {
      BrowseKeepsSelection(s, inputs[0]);
      NoPanicWhileScansDoNotShrink(Step(s, inputs[0]).next, inputs[1..]);
    }
  }

  /** Why `ScanDoesNotShrink` is needed: a refresh that leaves no more data lines
      than the marker's position, followed by Enter, indexes past the identifiers
      (line 62) even though the selection was valid before. */
  lemma ShrinkThenSelectPanics(s: Session, refresh: Input, enter: Input)
    requires s.phase == Browse && SelectionValid(s)
    requires refresh.read == Got(KeyPress(Char('r'))) && refresh.scan.Listed?
    requires DataCount(refresh.scan.text) <= s.pos
    requires enter.read == Got(KeyPress(Char('\n')))
    ensures Run(s, [refresh, enter]).last.phase == Done(Panicked)
  {
    var s1 := Step(s, refresh).next;
    assert s1.list == refresh.scan.text && s1.pos == s.pos;
    var s2 := Step(s1, enter).next;
    assert s2.phase == Done(Panicked);
    assert [refresh, enter][1..] == [enter];
    assert Run(s1, [enter]).last == Run(s2, []).last;
  }
}

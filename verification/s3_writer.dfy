/**
 The S3 file writer: the owner's Write and Close calls, and the upload goroutine the first Write starts.
 The two meet at an io.Pipe, where a write waits for reads, and at a channel for one error.
 */
module S3Writer {
  import opened Data
  import opened S3Client

  /** The owner of the file handle. `left` is what the pipe has not taken of the slice being written;
      a write offers its slice to the reader at least once, even an empty one. */
  datatype Owner =
    | Idle
    | Writing(left: Bytes, offered: bool)
    | Closing
    | Closed(result: Option<Error>)

  /** The upload goroutine. `got` is what its PutObject has read from the pipe. */
  datatype Worker =
    | NotStarted
    | PutPlaceholder
    | Streaming(got: Bytes)
    | Reporting(err: Option<Error>)
    | Releasing(err: Option<Error>)
    | Exited(err: Option<Error>)

  datatype State = State(
    create: bool,
    before: Option<Bytes>,
    visible: Option<Bytes>,
    owner: Owner,
    worker: Worker,
    writerClosed: bool,
    readerClosed: bool,
    errCh: seq<Option<Error>>,
    sent: nat,
    written: Bytes,
    refused: bool)

  datatype Event =
    | Write(p: Bytes)
    | Close
    | Transfer(n: nat)
    | WriteReturns
    | WriteFails
    | CloseReturns
    | PlaceholderDone(ok: bool, stored: bool)
    | StreamDone(ok: bool, stored: bool)
    | StreamBreaks
    | Report
    | Release

  const PLACEHOLDER: Bytes := [0]

  predicate Init(s: State) {
    s == State(s.create, s.before, s.before, Idle, NotStarted, false, false, [], 0, [], false)
  }

  predicate OwnerCalls(e: Event) {
    e.Write? || e.Close?
  }

  predicate Fails(e: Event) {
    (e.PlaceholderDone? && !e.ok) || (e.StreamDone? && !e.ok) || e.StreamBreaks?
  }

  predicate Enabled(s: State, e: Event) {
    match e
    case Write(_) => s.owner.Idle?
    case Close => s.owner.Idle?
    case Transfer(n) =>
      && s.owner.Writing? && s.worker.Streaming? && (!s.owner.offered || s.owner.left != [])
      && n <= |s.owner.left| && (n > 0 || s.owner.left == [])
    case WriteReturns => s.owner.Writing? && s.owner.offered && s.owner.left == []
    case WriteFails => s.owner.Writing? && s.readerClosed && (!s.owner.offered || s.owner.left != [])
    case CloseReturns => s.owner.Closing? && s.errCh != []
    case PlaceholderDone(_, _) => s.worker.PutPlaceholder?
    case StreamDone(_, _) => s.worker.Streaming? && s.writerClosed
    case StreamBreaks => s.worker.Streaming?
    case Report => s.worker.Reporting? && |s.errCh| < 1
    case Release => s.worker.Releasing?
  }

  function Next(s: State, e: Event): State
    requires Enabled(s, e)
  {
    match e
    case Write(p) =>
      s.(owner := Writing(p, false), written := s.written + p,
         worker := if s.worker != NotStarted then s.worker
                   else if s.create then PutPlaceholder else Streaming([]))
    case Close =>
      if s.worker == NotStarted then s.(owner := Closed(None))
      else s.(owner := Closing, writerClosed := true)
    case Transfer(n) =>
      s.(owner := Writing(s.owner.left[n..], true), worker := Streaming(s.worker.got + s.owner.left[..n]))
    case WriteReturns => s.(owner := Idle)
    case WriteFails => s.(owner := Idle, refused := true)
    case CloseReturns => s.(owner := Closed(s.errCh[0]), errCh := s.errCh[1..])
    case PlaceholderDone(ok, stored) =>
      s.(visible := if ok || stored then Some(PLACEHOLDER) else s.visible,
         worker := if ok then Streaming([]) else Reporting(Some(Failed)))
    case StreamDone(ok, stored) =>
      s.(visible := if ok || stored then Some(s.worker.got) else s.visible,
         worker := Reporting(if ok then None else Some(Failed)))
    case StreamBreaks => s.(worker := Reporting(Some(Failed)))
    case Report => s.(errCh := s.errCh + [s.worker.err], sent := s.sent + 1, worker := Releasing(s.worker.err))
    case Release => s.(readerClosed := true, worker := Exited(s.worker.err))
  }

  // ---------------------------------------------------------------- the invariant

  predicate Ended(w: Worker) {
    w.Reporting? || w.Releasing? || w.Exited?
  }

  /** What the object may look like at this point of the upload. */
  predicate VisibleAt(s: State) {
    match s.worker
    case NotStarted => s.visible == s.before
    case PutPlaceholder => s.visible == s.before && s.create
    case Streaming(_) => s.visible == if s.create then Some(PLACEHOLDER) else s.before
    case _ =>
      || (s.writerClosed && s.visible == Some(s.written))
      || (s.worker.err != None && (s.visible == s.before || (s.create && s.visible == Some(PLACEHOLDER))))
  }

  /** Everything written has been taken from the pipe, but for what a write is still waiting to hand on. */
  predicate PipeAt(s: State) {
    s.worker.Streaming? ==> s.written == s.worker.got + if s.owner.Writing? then s.owner.left else []
  }

  predicate ChannelAt(s: State) {
    && s.sent == (if s.worker.Releasing? || s.worker.Exited? then 1 else 0)
    && s.errCh == (if s.sent == 1 && !s.owner.Closed? then [s.worker.err] else [])
    && (s.owner.Closed? && s.worker != NotStarted ==> s.sent == 1 && s.owner.result == s.worker.err)
  }

  predicate Inv(s: State) {
    VisibleAt(s) && PipeAt(s) && ChannelAt(s) && FlagsAt(s)
  }

  predicate FlagsAt(s: State) {
    && s.writerClosed == (s.owner.Closing? || (s.owner.Closed? && s.worker != NotStarted))
    && s.readerClosed == s.worker.Exited?
    && (s.worker == NotStarted ==> s.written == [] && (s.owner.Idle? || s.owner == Closed(None)))
    && (s.worker.PutPlaceholder? && s.owner.Writing? ==> s.written == s.owner.left)
    && (s.worker.PutPlaceholder? && !s.owner.Writing? ==> s.written == [])
    && (s.refused ==> s.worker.Exited? && s.worker.err != None)
  }

  lemma InvStarts(s: State)
    requires Init(s)
    ensures Inv(s)
  {
  }

  lemma InvKept(s: State, e: Event)
    requires Inv(s) && Enabled(s, e)
    ensures Inv(Next(s, e))
  {
    hide *;
    InvIs(s);
    VisibleKept(s, e);
    PipeKept(s, e);
    ChannelKept(s, e);
    FlagsKept(s, e);
    InvIs(Next(s, e));
  }

  lemma InvIs(s: State)
    ensures Inv(s) <==> VisibleAt(s) && PipeAt(s) && ChannelAt(s) && FlagsAt(s)
  {
    hide VisibleAt, PipeAt, ChannelAt, FlagsAt;
  }

  lemma VisibleKept(s: State, e: Event)
    requires VisibleAt(s) && PipeAt(s) && FlagsAt(s) && Enabled(s, e)
    ensures VisibleAt(Next(s, e))
  {
    if s.worker.Streaming? {
      assert s.worker.got + [] == s.worker.got;
    }
  }

  lemma PipeKept(s: State, e: Event)
    requires PipeAt(s) && FlagsAt(s) && Enabled(s, e)
    ensures PipeAt(Next(s, e))
  {
    match e
    case Transfer(n) => Handed(s.worker.got, s.owner.left, n);
    case Write(p) => if s.worker.Streaming? { Handed(s.worker.got, p, 0); }
    case PlaceholderDone(_, _) => assert [] + s.written == s.written;
    case WriteReturns => if s.worker.Streaming? { Handed(s.worker.got, [], 0); }
    case _ =>
  }

  lemma Handed(got: Bytes, left: Bytes, n: nat)
    requires n <= |left|
    ensures got + left == got + left[..n] + left[n..] && got + [] == got && left[0..] == left && left[..0] == []
  {
  }

  lemma ChannelKept(s: State, e: Event)
    requires ChannelAt(s) && FlagsAt(s) && Enabled(s, e)
    ensures ChannelAt(Next(s, e))
  {
  }

  lemma FlagsKept(s: State, e: Event)
    requires FlagsAt(s) && ChannelAt(s) && VisibleAt(s) && Enabled(s, e)
    ensures FlagsAt(Next(s, e))
  {
  }

  /** A run: every state follows from the one before by some event. */
  predicate Run(states: seq<State>, events: seq<Event>) {
    && |states| == |events| + 1
    && Init(states[0])
    && forall i :: 0 <= i < |events| ==> Enabled(states[i], events[i]) && states[i + 1] == Next(states[i], events[i])
  }

  lemma RunStep(states: seq<State>, events: seq<Event>, i: nat)
    requires Run(states, events) && i < |states|
    ensures i == 0 ==> Init(states[0])
    ensures i > 0 ==>
      && Enabled(states[i - 1], events[i - 1]) && states[i] == Next(states[i - 1], events[i - 1])
      && states[i].create == states[i - 1].create && states[i].before == states[i - 1].before
  {
    hide Enabled, Init;
    if i > 0 {
      NextKeeps(states[i - 1], events[i - 1]);
    }
  }

  lemma NextKeeps(s: State, e: Event)
    requires Enabled(s, e)
    ensures Next(s, e).create == s.create && Next(s, e).before == s.before
  {
  }

  lemma {:induction false} RunInv(states: seq<State>, events: seq<Event>, i: nat)
    requires Run(states, events) && i < |states|
    ensures Inv(states[i]) && states[i].create == states[0].create && states[i].before == states[0].before
  {
    hide Inv, Enabled, Next, Init;
    RunStep(states, events, i);
    if i == 0 {
      InvStarts(states[0]);
    } else {
      RunInv(states, events, i - 1);
      InvKept(states[i - 1], events[i - 1]);
    }
  }

  // ---------------------------------------------------------------- what every run promises

  /** At every moment of every run the object is as before, the placeholder of a creating open, or the
      whole of what was written; the last only once the owner has called Close. */
  lemma NeverPartial(states: seq<State>, events: seq<Event>, i: nat)
    requires Run(states, events) && i < |states|
    ensures var s := states[i];
      || s.visible == states[0].before
      || (s.create && s.visible == Some([0]))
      || (s.writerClosed && s.visible == Some(s.written))
  {
    RunInv(states, events, i);
  }

  /** The channel gets one value at most, its sender never waits, and by the time Close has returned it
      has got exactly one. */
  lemma OneError(states: seq<State>, events: seq<Event>, i: nat)
    requires Run(states, events) && i < |states|
    ensures var s := states[i];
      && s.sent <= 1 && |s.errCh| <= 1
      && (s.worker.Reporting? ==> Enabled(s, Report))
      && (s.owner.Closed? && s.worker != NotStarted ==> s.sent == 1 && s.errCh == [])
  {
    RunInv(states, events, i);
  }

  /** A write or a close that has not returned can always go on, or the goroutine can. */
  lemma NoDeadlock(states: seq<State>, events: seq<Event>, i: nat) returns (e: Event)
    requires Run(states, events) && i < |states|
    requires states[i].owner.Writing? || states[i].owner.Closing?
    ensures Enabled(states[i], e) && !OwnerCalls(e)
  {
    RunInv(states, events, i);
    var s := states[i];
    match s.worker
    case NotStarted => e := Report;
    case PutPlaceholder => e := PlaceholderDone(true, true);
    case Streaming(_) =>
      e := if s.owner.Closing? then StreamDone(true, true)
           else if s.owner.offered && s.owner.left == [] then WriteReturns
           else Transfer(|s.owner.left|);
    case Reporting(_) => e := Report;
    case Releasing(_) => e := Release;
    case Exited(_) =>
      e := if s.owner.Closing? then CloseReturns
           else if s.owner.offered && s.owner.left == [] then WriteReturns
           else WriteFails;
  }

  function WorkLeft(w: Worker): nat {
    match w
    case NotStarted => 0
    case PutPlaceholder => 4
    case Streaming(_) => 3
    case Reporting(_) => 2
    case Releasing(_) => 1
    case Exited(_) => 0
  }

  function StepsLeft(s: State): nat {
    WorkLeft(s.worker) +
    match s.owner
    case Idle => 0
    case Writing(left, offered) => |left| + if offered then 1 else 2
    case Closing => 1
    case Closed(_) => 0
  }

  /** Between two calls of the owner only finitely much can happen: with no deadlock, every call
      returns. */
  lemma StepsRunOut(s: State, e: Event)
    requires Inv(s) && Enabled(s, e) && !OwnerCalls(e)
    ensures StepsLeft(Next(s, e)) < StepsLeft(s)
  {
  }

  /** The events from i to j are bounded by the steps left at i when the owner makes no new call. */
  lemma {:induction false} CallsReturn(states: seq<State>, events: seq<Event>, i: nat, j: nat)
    requires Run(states, events) && i <= j < |states|
    requires forall k :: i <= k < j ==> !OwnerCalls(events[k])
    ensures j - i + StepsLeft(states[j]) <= StepsLeft(states[i])
    decreases j - i
  {
    if i < j {
      RunInv(states, events, i);
      StepsRunOut(states[i], events[i]);
      CallsReturn(states, events, i + 1, j);
    }
  }

  predicate Untroubled(s: State) {
    && (Ended(s.worker) ==> s.worker.err == None)
    && !s.refused
    && (s.owner.Closed? ==> s.owner.result == None)
  }

  lemma UntroubledKept(s: State, e: Event)
    requires Inv(s) && Untroubled(s) && Enabled(s, e) && !Fails(e)
    ensures Untroubled(Next(s, e))
  {
    hide PipeAt;
  }

  /** While no put fails, no write is refused and Close cannot answer an error. */
  lemma {:induction false} NoFailure(states: seq<State>, events: seq<Event>, i: nat)
    requires Run(states, events) && i < |states|
    requires forall k :: 0 <= k < i ==> !Fails(events[k])
    ensures Untroubled(states[i])
  {
    hide Inv, Next, Enabled, Fails;
    if i > 0 {
      NoFailure(states, events, i - 1);
      RunInv(states, events, i - 1);
      UntroubledKept(states[i - 1], events[i - 1]);
    }
  }

  /** What has failed stays failed. */
  lemma FailedKept(s: State, e: Event)
    requires Inv(s) && Enabled(s, e)
    ensures Fails(e) || (Ended(s.worker) && s.worker.err == Some(Failed)) ==>
      Ended(Next(s, e).worker) && Next(s, e).worker.err == Some(Failed)
  {
    hide VisibleAt, PipeAt;
  }

  /** Once something has failed the upload is over, its error is the one that Close gives, and no Close gives nil. */
  lemma {:induction false} FailureTold(states: seq<State>, events: seq<Event>, k: nat, i: nat)
    requires Run(states, events) && k < i < |states| && Fails(events[k])
    ensures Ended(states[i].worker) && states[i].worker.err == Some(Failed)
    ensures states[i].owner.Closed? ==> states[i].owner.result == Some(Failed)
    decreases i
  {
    hide Next, Enabled, Fails;
    if i > k + 1 {
      FailureTold(states, events, k, i - 1);
    }
    RunInv(states, events, i - 1);
    FailedKept(states[i - 1], events[i - 1]);
    RunInv(states, events, i);
  }

  /** A nil answer to Close means that the object holds everything the writes were given, or that nothing was ever
      written. Close answers an error exactly when something has failed, and then the one of the upload. */
  lemma CloseTells(states: seq<State>, events: seq<Event>, i: nat)
    requires Run(states, events) && i < |states| && states[i].owner.Closed?
    ensures var s := states[i];
      && (s.worker == NotStarted ==> s.owner.result == None && s.visible == s.before && s.written == [])
      && (s.worker != NotStarted && s.owner.result == None ==> s.visible == Some(s.written) && !s.refused)
      && (s.owner.result != None ==> Ended(s.worker) && s.worker.err == s.owner.result)
      && (s.owner.result != None <==> exists k :: 0 <= k < i && Fails(events[k]))
  {
    hide Fails;
    RunInv(states, events, i);
    if k :| 0 <= k < i && Fails(events[k]) {
      FailureTold(states, events, k, i);
    } else {
      NoFailure(states, events, i);
    }
  }

  /** A run goes on with any enabled event. */
  lemma Extend(states: seq<State>, events: seq<Event>, s: State, e: Event)
    requires Run(states + [s], events) && Enabled(s, e)
    ensures Run(states + [s] + [Next(s, e)], events + [e])
  {
    hide Next, Enabled, Init;
    assert (states + [s])[0] == (states + [s] + [Next(s, e)])[0];
    forall i | 0 <= i < |events + [e]|
      ensures var all := states + [s] + [Next(s, e)];
        Enabled(all[i], (events + [e])[i]) && all[i + 1] == Next(all[i], (events + [e])[i])
    {
      assert i < |events| ==> (states + [s])[i + 1] == Next((states + [s])[i], events[i]);
    }
  }

  /** Runs that complete exist: every slice can be written and stored. */
  lemma Completes(s: State, p: Bytes) returns (states: seq<State>, events: seq<Event>, t: State)
    requires Init(s)
    ensures Run(states + [t], events) && (states + [t])[0] == s
    ensures t.owner == Closed(None) && t.visible == Some(p)
  {
    hide Run;
    StartOfRun(s);
    states, events, t := [], [], s;
    states, events, t := Goes(s, states, events, t, Write(p));
    if s.create {
      states, events, t := Goes(s, states, events, t, PlaceholderDone(true, true));
    }
    states, events, t := Goes(s, states, events, t, Transfer(|p|));
    assert [] + p[..|p|] == p;
    states, events, t := Goes(s, states, events, t, WriteReturns);
    states, events, t := Goes(s, states, events, t, Close);
    states, events, t := Goes(s, states, events, t, StreamDone(true, true));
    states, events, t := Goes(s, states, events, t, Report);
    states, events, t := Goes(s, states, events, t, CloseReturns);
  }

  lemma StartOfRun(s: State)
    requires Init(s)
    ensures Run([] + [s], []) && ([] + [s])[0] == s
  {
  }

  lemma Goes(s: State, states: seq<State>, events: seq<Event>, t: State, e: Event)
    returns (states': seq<State>, events': seq<Event>, t': State)
    requires Run(states + [t], events) && (states + [t])[0] == s && Enabled(t, e)
    ensures Run(states' + [t'], events') && (states' + [t'])[0] == s && t' == Next(t, e)
  {
    hide Next, Enabled, Run;
    Extend(states, events, t, e);
    states', events', t' := states + [t], events + [e], Next(t, e);
  }
}

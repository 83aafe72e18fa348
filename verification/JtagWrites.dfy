/**
 What the debugger learns about a write over JTAG. A capture while a write is in flight shows status 0, so
 one more scan does not tell whether the write went through; a second one does, whatever the crossing.
 */
module JtagWrites {
  import opened Bits
  import opened Bytes
  import opened Jtag
  import opened JtagScan
  import opened JtagTasks
  import opened JtagDmi

  // ----- an offered write, as long as nothing else is asked

  /** The answer g has got to the write offered in f. */
  function AnswerTo(f: Fsm, g: Fsm): Option<Reply> {
    if |g.got| > |f.got| then Some(g.got[|f.got|].reply) else None
  }

  /** The write offered in f is still under way without an error, or has been answered by exactly one
      exchange, Success or Busy, and Busy has left an error. */
  ghost predicate WriteUnderway(f: Fsm, g: Fsm) {
    match g.phase
    case Write | WaitWrite => g.got == f.got && g.address == f.address && g.data == f.data && g.error.NoError?
    case Idle =>
      && |g.got| == |f.got| + 1 && g.got[..|f.got|] == f.got
      && g.got[|f.got|].request == Request(true, f.address, f.data)
      && (if g.got[|f.got|].reply.status.Success? then g.error.NoError?
          else g.got[|f.got|].reply.status.TooFast? && g.error.Busy?)
    case _ => false
  }

  lemma UnderwayStep(env: Crossing, t: nat, f: Fsm, g: Fsm, ev: Event)
    requires Orderly(env) && WriteUnderway(f, g) && (ev.Quiet? || ev.Capture?)
    ensures WriteUnderway(f, FsmNext(g, ev, env(t)))
  {
  }

  lemma {:induction false} UnderwaySettles(env: Crossing, t: nat, f: Fsm, g: Fsm, n: nat)
    requires Orderly(env) && WriteUnderway(f, g)
    ensures WriteUnderway(f, Settle(env, t, g, n))
  {
    hide FsmNext, WriteUnderway, Orderly;
    if n > 0 {
      UnderwaySettles(env, t, f, g, n - 1);
      UnderwayStep(env, t + n - 1, f, Settle(env, t, g, n - 1), Quiet);
    }
  }

  /** After the scan of a write word either exactly that write is offered, or an error is held. */
  lemma WriteScanned(env: Crossing, t: nat, f: Fsm, a: Word7, d: Word)
    ensures var g := ScanFsm(env, t, f, 41, UpdateDmi(WriteWord(a, d)));
            !g.error.NoError? || (g.phase.Write? && g.address == a && g.data == d && WriteUnderway(g, g))
  {
    hide Settle;
    FieldsOf([false, true], d, a);
  }

  // ----- the status in the scan after the write

  /** What the scan after a write captures; g is the machine after the write's own scan. */
  function WriteResult(env: Crossing, t: nat, f: Fsm, a: Word7, d: Word, wait: nat): Word41 {
    var g := ScanFsm(env, t, f, 41, UpdateDmi(WriteWord(a, d)));
    ReadBack(env, t + 46 + wait, Settle(env, t + 46, g, wait), WriteWord(a, d))
  }

  /** The machine after the capture of that scan. */
  function AtCapture(env: Crossing, t: nat, g: Fsm, wait: nat): Fsm {
    FsmNext(Settle(env, t + 46, g, wait + 2), Capture, env(t + 48 + wait))
  }

  /** The capture shows status 0 exactly if the scan has offered the write and there is no answer yet, or
      the answer is Success. */
  lemma WriteStatus(env: Crossing, t: nat, f: Fsm, a: Word7, d: Word, wait: nat)
    requires Orderly(env)
    ensures var g := ScanFsm(env, t, f, 41, UpdateDmi(WriteWord(a, d)));
            var answer := AnswerTo(g, AtCapture(env, t, g, wait));
            OpOf(WriteResult(env, t, f, a, d, wait)) == (false, false)
            <==> g.error.NoError? && (answer.None? || answer.value.status.Success?)
  {
    hide Settle, ScanFsm, Orderly;
    var g := ScanFsm(env, t, f, 41, UpdateDmi(WriteWord(a, d)));
    var h := Settle(env, t + 46, g, wait + 2);
    WriteScanned(env, t, f, a, d);
    SettleMore(env, t + 46, g, wait, 2);
    FieldsOf([false, false], h.data, h.address);
    FieldsOf([true, true], h.data, h.address);
    FieldsOf([false, true], d, a);
    if g.error.NoError? {
      UnderwaySettles(env, t + 46, g, g, wait + 2);
      UnderwayStep(env, t + 48 + wait, g, h, Capture);
      StatusAtCapture(env, t + 48 + wait, g, h);
    } else {
      ErrorSettles(env, t + 46, g, wait + 2);
    }
  }

  lemma StatusAtCapture(env: Crossing, t: nat, g: Fsm, h: Fsm)
    requires Orderly(env) && WriteUnderway(g, h)
    ensures var answer := AnswerTo(g, FsmNext(h, Capture, env(t)));
            (h.error.NoError? && !BusyNow(h, Capture, env(t))) <==> (answer.None? || answer.value.status.Success?)
    ensures !h.error.OpFailed?
  {
  }

  /** So a status 0 says that the write has been answered with Success exactly if the machine is done with it
      by the capture. */
  lemma StatusMeansSuccess(env: Crossing, t: nat, f: Fsm, a: Word7, d: Word, wait: nat)
    requires Orderly(env) && OpOf(WriteResult(env, t, f, a, d, wait)) == (false, false)
    ensures var g := ScanFsm(env, t, f, 41, UpdateDmi(WriteWord(a, d)));
            var h := AtCapture(env, t, g, wait);
            h.phase.Idle? <==> |h.got| == |g.got| + 1 && IsSuccess(h.got[|g.got|], a, d)
  {
    hide Settle, ScanFsm, Orderly;
    var g := ScanFsm(env, t, f, 41, UpdateDmi(WriteWord(a, d)));
    WriteStatus(env, t, f, a, d, wait);
    WriteScanned(env, t, f, a, d);
    UnderwaySettles(env, t + 46, g, g, wait + 2);
    UnderwayStep(env, t + 48 + wait, g, Settle(env, t + 46, g, wait + 2), Capture);
  }

  predicate IsSuccess(x: Exchange, a: Word7, d: Word) {
    x.request == Request(true, a, d) && x.reply.status.Success?
  }

  /** It is, when the debugger waits twice the time the crossing takes for room and for an answer. */
  lemma TimelyStatus(env: Crossing, l: nat, t: nat, f: Fsm, a: Word7, d: Word, wait: nat)
    requires Orderly(env) && Timely(env, l) && wait >= 2 * l
    requires OpOf(WriteResult(env, t, f, a, d, wait)) == (false, false)
    ensures var g := ScanFsm(env, t, f, 41, UpdateDmi(WriteWord(a, d)));
            var h := AtCapture(env, t, g, wait);
            |h.got| == |g.got| + 1 && IsSuccess(h.got[|g.got|], a, d)
  {
    hide Settle, ScanFsm, Orderly, Timely;
    var g := ScanFsm(env, t, f, 41, UpdateDmi(WriteWord(a, d)));
    StatusMeansSuccess(env, t, f, a, d, wait);
    SettledByThen(env, l, t + 46, g, wait + 2);
  }

  /** Without such a wait it need not be: if the crossing has no room, the scan after any write on an idle,
      error-free machine shows status 0, and nothing has been sent at all. */
  lemma StatusTooEarly(t: nat, f: Fsm, a: Word7, d: Word, wait: nat)
    requires f.phase.Idle? && f.error.NoError?
    ensures var env: Crossing := _ => Cdc(false, None);
            var g := ScanFsm(env, t, f, 41, UpdateDmi(WriteWord(a, d)));
            && Orderly(env) && OpOf(WriteResult(env, t, f, a, d, wait)) == (false, false)
            && AtCapture(env, t, g, wait).sent == f.sent && AtCapture(env, t, g, wait).got == f.got
  {
    hide Settle, ScanFsm;
    var env: Crossing := _ => Cdc(false, None);
    var g := ScanFsm(env, t, f, 41, UpdateDmi(WriteWord(a, d)));
    WriteIssues(env, t, f, a, d);
    NeverRoom(env, t + 46, g, wait + 2);
    WriteStatus(env, t, f, a, d, wait);
  }

  lemma {:induction false} NeverRoom(env: Crossing, t: nat, f: Fsm, n: nat)
    requires f.phase.Write? && forall u: nat :: !env(u).ready
    ensures Settle(env, t, f, n) == f
  {
    if n > 0 { NeverRoom(env, t, f, n - 1); }
  }

  // ----- the status in the scan after that

  /** What a second status scan captures, after the first with its own wait. */
  function Confirmation(env: Crossing, t: nat, f: Fsm, a: Word7, d: Word, wait: nat, again: nat): Word41 {
    var e := AfterStatus(env, t, f, a, d, wait);
    ReadBack(env, t + 92 + wait + again, Settle(env, t + 92 + wait, e, again), NopWord(a))
  }

  /** The machine after the first status scan. */
  function AfterStatus(env: Crossing, t: nat, f: Fsm, a: Word7, d: Word, wait: nat): Fsm {
    var g := ScanFsm(env, t, f, 41, UpdateDmi(WriteWord(a, d)));
    ScanFsm(env, t + 46 + wait, Settle(env, t + 46, g, wait), 41, UpdateDmi(NopWord(a)))
  }

  /** A scan that leaves no error has found none, and the machine idle at its update. */
  lemma CleanScan(env: Crossing, t: nat, m: Fsm, a: Word7)
    requires ScanFsm(env, t, m, 41, UpdateDmi(NopWord(a))).error.NoError?
    ensures var s := Settle(env, t + 3, FsmNext(Settle(env, t, m, 2), Capture, env(t + 2)), 42);
            && m.error.NoError? && s.phase.Idle? && s.error.NoError?
            && ScanFsm(env, t, m, 41, UpdateDmi(NopWord(a))).got == s.got
  {
    hide Settle;
    var b := FsmNext(Settle(env, t, m, 2), Capture, env(t + 2));
    FieldsOf([false, false], Falses(32), a);
    if !b.error.NoError? { ErrorSettles(env, t + 3, b, 42); }
    if !m.error.NoError? { ErrorSettles(env, t, m, 2); }
  }

  /** A captured status 0 without a failed operation says that no error is held. */
  lemma CleanStatus(env: Crossing, t: nat, e: Fsm, n: nat, a: Word7)
    requires Orderly(env) && !e.error.OpFailed?
    requires OpOf(ReadBack(env, t + n, Settle(env, t, e, n), NopWord(a))) == (false, false)
    ensures e.error.NoError?
  {
    hide Settle;
    SettleMore(env, t, e, n, 2);
    var h := Settle(env, t, e, n + 2);
    FieldsOf([true, true], h.data, h.address);
    if !e.error.NoError? { ErrorSettles(env, t, e, n + 2); }
  }

  lemma UnderwayScan(env: Crossing, t: nat, g: Fsm, m: Fsm)
    requires Orderly(env) && WriteUnderway(g, m)
    ensures WriteUnderway(g, Settle(env, t + 3, FsmNext(Settle(env, t, m, 2), Capture, env(t + 2)), 42))
  {
    hide Settle, FsmNext, WriteUnderway, Orderly;
    UnderwaySettles(env, t, g, m, 2);
    UnderwayStep(env, t + 2, g, Settle(env, t, m, 2), Capture);
    UnderwaySettles(env, t + 3, g, FsmNext(Settle(env, t, m, 2), Capture, env(t + 2)), 42);
  }

  /** A status 0 in the second status scan comes only with the Success answer to this very write, whatever
      the machine was doing before and however slow the crossing: a write still in flight at the update of
      the first status scan leaves the busy error. */
  lemma WriteTask(env: Crossing, t: nat, f: Fsm, a: Word7, d: Word, wait: nat, again: nat)
    requires Orderly(env) && !f.error.OpFailed?
    requires OpOf(Confirmation(env, t, f, a, d, wait, again)) == (false, false)
    ensures var g, e := ScanFsm(env, t, f, 41, UpdateDmi(WriteWord(a, d))), AfterStatus(env, t, f, a, d, wait);
            g.phase.Write? && |e.got| == |g.got| + 1 && g.got <= e.got && IsSuccess(e.got[|g.got|], a, d)
  {
    hide Settle, ScanFsm, Orderly;
    var g, e := ScanFsm(env, t, f, 41, UpdateDmi(WriteWord(a, d))), AfterStatus(env, t, f, a, d, wait);
    var m := Settle(env, t + 46, g, wait);
    ScanNeverFails(env, t, f, 41, UpdateDmi(WriteWord(a, d)));
    NeverFails(env, t + 46, g, wait);
    ScanNeverFails(env, t + 46 + wait, m, 41, UpdateDmi(NopWord(a)));
    CleanStatus(env, t + 92 + wait, e, again, a);
    CleanScan(env, t + 46 + wait, m, a);
    if !g.error.NoError? { ErrorSettles(env, t + 46, g, wait); }
    WriteScanned(env, t, f, a, d);
    UnderwaySettles(env, t + 46, g, g, wait);
    UnderwayScan(env, t + 46 + wait, g, m);
  }

  // ----- requests that come too early

  /** An update that meets a request still in flight is dropped and reported: the request in flight stays as
      it is, and the busy error is held from then on. */
  lemma OverrunIsReported(f: Fsm, ev: Event, c: Cdc)
    requires !f.phase.Idle? && Updates(ev) && !Clears(ev) && !(ev.UpdateDtmcs? && ev.reset)
    requires c.reply.Some? ==> c.reply.value.status in {Success, TooFast}
    ensures var g := FsmNext(f, ev, c);
            && !g.error.NoError? && (f.error.NoError? ==> g.error.Busy?)
            && g == FsmNext(f, Quiet, c).(error := g.error)
  {
  }
}

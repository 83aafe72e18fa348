/**
 The DMI protocol over JTAG: what the request machine sends for a write, what a read returns, that read
 data are fresh, and how long answers take.
 */
module JtagDmi {
  import opened Bits
  import opened Bytes
  import opened Jtag
  import opened JtagScan
  import opened JtagTasks

  function WriteWord(a: Word7, d: Word): Word41 { [false, true] + d + a }
  function ReadWord(a: Word7): Word41 { [true, false] + Falses(32) + a }
  function NopWord(a: Word7): Word41 { [false, false] + Falses(32) + a }

  // ----- writes

  lemma {:induction false} IdleSettles(env: Crossing, t: nat, f: Fsm, n: nat)
    requires f.phase.Idle?
    ensures Settle(env, t, f, n) == f
  {
    if n > 0 { IdleSettles(env, t, f, n - 1); }
  }

  lemma FieldsOf(op: seq<bool>, d: Word, a: Word7)
    requires |op| == 2
    ensures var w: Word41 := op + d + a; OpOf(w) == (op[0], op[1]) && DataOf(w) == d && AddressOf(w) == a
  {
  }

  /** From an idle, error-free machine a scan of the write word sends nothing before its update, and then
      exactly that write stands at the port. */
  lemma WriteIssues(env: Crossing, t: nat, f: Fsm, a: Word7, d: Word)
    requires f.phase.Idle? && f.error.NoError?
    ensures ScanFsm(env, t, f, 41, UpdateDmi(WriteWord(a, d))) == Fsm(Write, a, d, NoError, f.sent, f.got)
  {
    hide Settle;
    IdleSettles(env, t, f, 2);
    IdleSettles(env, t + 3, f, 42);
    FieldsOf([false, true], d, a);
  }

  // ----- every request is sent once and answered once, whatever the debugger drives

  /** No cycle of the pin sequence clears the request machine. */
  ghost predicate NeverCleared(env: Crossing, id: Word, t: nat, d: Dtm, pins: seq<Pin>) {
    forall k :: 0 <= k < |pins| ==> !Clears(EventOf(Drive(env, id, t, d, pins[..k])))
  }

  /** Since f, in which nothing was outstanding, requests have been sent and answered in order, and only
      the last one sent can still be without its answer. */
  ghost predicate InOrder(f: Fsm, g: Fsm) {
    && f.sent <= g.sent && f.got <= g.got
    && |g.sent| - |f.sent| == |g.got| - |f.got| + (if Waiting(g.phase) then 1 else 0)
    && (Waiting(g.phase) ==> g.sent[|g.sent| - 1] == Current(g))
    && forall j :: |f.got| <= j < |g.got| ==> g.got[j].request == g.sent[|f.sent| + (j - |f.got|)]
  }

  lemma InOrderStep(f: Fsm, g: Fsm, ev: Event, c: Cdc)
    requires InOrder(f, g) && !Clears(ev)
    ensures InOrder(f, FsmNext(g, ev, c))
  {
    var h := FsmNext(g, ev, c);
    if Answered(g, c) {
      assert |g.got| - |f.got| == |g.sent| - 1 - |f.sent|;
    }
  }

  /** A request that was offered in f: still offered as it was, or the first one sent since. */
  predicate OfferedOrSent(f: Fsm, g: Fsm) {
    if |g.sent| <= |f.sent| then g.phase == f.phase && Current(g) == Current(f) else g.sent[|f.sent|] == Current(f)
  }

  lemma OfferedStep(f: Fsm, g: Fsm, ev: Event, c: Cdc)
    requires (f.phase.Read? || f.phase.Write?) && InOrder(f, g) && OfferedOrSent(f, g) && !Clears(ev)
    ensures OfferedOrSent(f, FsmNext(g, ev, c))
  {
  }

  /** An offered request is kept through every pin sequence that does not clear the machine, with further
      scans, dmiresets and new requests: it is sent once, as the first, and the answers that have come are
      those to the requests sent, in order, with none left out. */
  lemma {:induction false} OneRequest(env: Crossing, id: Word, t: nat, d: Dtm, pins: seq<Pin>)
    requires (d.fsm.phase.Read? || d.fsm.phase.Write?) && NeverCleared(env, id, t, d, pins)
    ensures var g := Drive(env, id, t, d, pins).fsm; InOrder(d.fsm, g) && OfferedOrSent(d.fsm, g)
    decreases |pins|
  {
    hide FsmNext, InOrder, OfferedOrSent, TapTick, DrNext, DtmcsNext, EventOf;
    var n := |pins| - 1;
    if n < 0 {
      FromTheStart(d.fsm);
    } else {
      var p := pins[..n];
      forall k | 0 <= k < n ensures !Clears(EventOf(Drive(env, id, t, d, p[..k]))) { assert p[..k] == pins[..k]; }
      OneRequest(env, id, t, d, p);
      var e := Drive(env, id, t, d, p);
      InOrderStep(d.fsm, e.fsm, EventOf(e), env(t + n));
      OfferedStep(d.fsm, e.fsm, EventOf(e), env(t + n));
    }
  }

  lemma FromTheStart(f: Fsm)
    requires f.phase.Read? || f.phase.Write?
    ensures InOrder(f, f) && OfferedOrSent(f, f)
  {
  }

  /** For a write: offered still, or sent once; and whatever is answered first is this write. */
  lemma OneWrite(env: Crossing, id: Word, t: nat, d: Dtm, pins: seq<Pin>)
    requires d.fsm.phase.Write? && NeverCleared(env, id, t, d, pins)
    ensures var f, g := d.fsm, Drive(env, id, t, d, pins).fsm;
            var w := Request(true, f.address, f.data);
            && f.sent <= g.sent && f.got <= g.got
            && (if |g.sent| == |f.sent| then g.phase.Write? && Current(g) == w else g.sent[|f.sent|] == w)
            && (|g.got| > |f.got| ==> g.got[|f.got|].request == w)
            && (g.phase.Idle? ==> |g.got| > |f.got| && |g.got| - |f.got| == |g.sent| - |f.sent|)
  {
    hide Drive, NeverCleared;
    OneRequest(env, id, t, d, pins);
    var f, g := d.fsm, Drive(env, id, t, d, pins).fsm;
    if |g.got| > |f.got| { assert g.got[|f.got|].request == g.sent[|f.sent|]; }
  }

  // ----- reads

  /** What the machine keeps of an answer to a read. */
  function Kept(r: Reply): Word {
    match r.status
    case Success => r.data
    case Failed => DEADBEEF
    case TooFast => B051B051
    case Reserved => BAADC0DE
  }

  /** A read that has been issued: offered, sent, or answered by exactly one exchange. */
  ghost predicate ReadUnderway(f: Fsm, g: Fsm) {
    match g.phase
    case Read | WaitRead =>
      g.got == f.got && g.address == f.address && g.data == f.data && g.error == f.error
    case Idle =>
      && |g.got| == |f.got| + 1 && g.got[..|f.got|] == f.got && g.address == f.address
      && var x := g.got[|f.got|];
         && x.request == Request(false, f.address, f.data) && g.data == Kept(x.reply)
         && (g.error.NoError? ==> x.reply.status.Success? || x.reply.status.Reserved?)
    case _ => false
  }

  lemma {:induction false} ReadSettles(env: Crossing, t: nat, f: Fsm, n: nat)
    requires f.phase.Read? && f.error.NoError?
    ensures ReadUnderway(f, Settle(env, t, f, n))
  {
    if n > 0 { ReadSettles(env, t, f, n - 1); }
  }

  /** A held error stays until a clear or dmireset, and nothing leaves Idle while it is held. */
  lemma ErrorSticks(f: Fsm, ev: Event, c: Cdc)
    requires !f.error.NoError? && !Clears(ev) && !(ev.UpdateDtmcs? && ev.reset)
    ensures FsmNext(f, ev, c).error == f.error && (f.phase.Idle? ==> FsmNext(f, ev, c) == f)
  {
  }

  lemma {:induction false} ErrorSettles(env: Crossing, t: nat, f: Fsm, n: nat)
    requires !f.error.NoError?
    ensures Settle(env, t, f, n).error == f.error
  {
    hide FsmNext;
    if n > 0 {
      ErrorSettles(env, t, f, n - 1);
      ErrorSticks(Settle(env, t, f, n - 1), Quiet, env(t + n - 1));
    }
  }

  /** After the scan of a read word either that read is offered at the port, or an error is held. */
  lemma ReadIssues(env: Crossing, t: nat, f: Fsm, a: Word7)
    ensures var g := ScanFsm(env, t, f, 41, UpdateDmi(ReadWord(a)));
            !g.error.NoError? || (g.phase.Read? && g.address == a && g.data == Falses(32))
  {
    hide Settle;
    FieldsOf([true, false], Falses(32), a);
  }

  /** What the second scan of a read task captures. */
  function ReadBack(env: Crossing, t: nat, f: Fsm, dr: Word41): Word41 {
    DrNext(dr, Settle(env, t, f, 2), Capture, env(t + 2), Dmi, false, false)
  }

  /** A read task: the scan of the read word, a wait, the scan that reads back. g is the machine after the
      first scan. */
  function ReadResult(env: Crossing, t: nat, f: Fsm, a: Word7, wait: nat): Word41 {
    var g := ScanFsm(env, t, f, 41, UpdateDmi(ReadWord(a)));
    ReadBack(env, t + 46 + wait, Settle(env, t + 46, g, wait), ReadWord(a))
  }

  /** A read task reports status 0 only if the module answered that very read, after it was issued and
      without an error, and then returns the answer. */
  lemma ReadIsAnswered(env: Crossing, t: nat, f: Fsm, a: Word7, wait: nat)
    requires OpOf(ReadResult(env, t, f, a, wait)) == (false, false)
    ensures var g := ScanFsm(env, t, f, 41, UpdateDmi(ReadWord(a)));
            var h := Settle(env, t + 46, g, wait + 2);
            && g.phase.Read? && g.address == a && h.phase.Idle? && |h.got| == |g.got| + 1
            && h.got[|g.got|].request == Request(false, a, Falses(32))
            && (h.got[|g.got|].reply.status.Success? || h.got[|g.got|].reply.status.Reserved?)
            && DataOf(ReadResult(env, t, f, a, wait)) == Kept(h.got[|g.got|].reply)
  {
    hide Settle, ScanFsm;
    var g := ScanFsm(env, t, f, 41, UpdateDmi(ReadWord(a)));
    ReadIssues(env, t, f, a);
    SettleMore(env, t + 46, g, wait, 2);
    var h := Settle(env, t + 46, g, wait + 2);
    if g.error.NoError? {
      ReadSettles(env, t + 46, g, wait + 2);
      FieldsOf([false, false], h.data, h.address);
    } else {
      ErrorSettles(env, t + 46, g, wait + 2);
    }
  }

  // ----- fresh read data, for every pin sequence

  /** The debug module answers Success or Busy and nothing else. */
  ghost predicate Orderly(env: Crossing) {
    forall t: nat :: env(t).reply.Some? ==> env(t).reply.value.status.Success? || env(t).reply.value.status.TooFast?
  }

  /** What has become of the last accepted Update-DR, if it was a read and the errors have not been
      cleared since. */
  datatype Story = NoRead | Underway | Fresh(data: Word) | Refused

  function StoryNext(s: Story, f: Fsm, ev: Event, c: Cdc): Story {
    if Clears(ev) || (ev.UpdateDtmcs? && ev.reset) then NoRead
    else if f.phase.Idle? && ev.UpdateDmi? && f.error.NoError? then
      if OpOf(ev.w) == (true, false) then Underway else NoRead
    else if s.Underway? && Answered(f, c) then
      if c.reply.value.status.Success? then Fresh(c.reply.value.data) else Refused
    else s
  }

  function StoryOf(env: Crossing, id: Word, t: nat, d: Dtm, pins: seq<Pin>): Story {
    var n := |pins| - 1;
    if n < 0 then NoRead
    else
      var e := Drive(env, id, t, d, pins[..n]);
      StoryNext(StoryOf(env, id, t, d, pins[..n]), e.fsm, EventOf(e), env(t + n))
  }

  predicate StoryHolds(s: Story, f: Fsm) {
    && !f.error.OpFailed?
    && match s
       case NoRead => true
       case Underway => f.phase.Read? || f.phase.WaitRead?
       case Fresh(v) => f.phase.Idle? && f.data == v
       case Refused => f.phase.Idle? && f.error.Busy?
  }

  lemma StoryStep(s: Story, f: Fsm, ev: Event, c: Cdc)
    requires StoryHolds(s, f)
    requires c.reply.Some? ==> c.reply.value.status.Success? || c.reply.value.status.TooFast?
    ensures StoryHolds(StoryNext(s, f, ev, c), FsmNext(f, ev, c))
  {
  }

  lemma {:induction false} StoryAlways(env: Crossing, id: Word, t: nat, d: Dtm, pins: seq<Pin>)
    requires Orderly(env) && !d.fsm.error.OpFailed?
    ensures StoryHolds(StoryOf(env, id, t, d, pins), Drive(env, id, t, d, pins).fsm)
    decreases |pins|
  {
    hide StoryNext, FsmNext, TapTick, DrNext, DtmcsNext;
    var n := |pins| - 1;
    if n >= 0 {
      StoryAlways(env, id, t, d, pins[..n]);
      var e := Drive(env, id, t, d, pins[..n]);
      StoryStep(StoryOf(env, id, t, d, pins[..n]), e.fsm, EventOf(e), env(t + n));
    }
  }

  /** Under orderly answers, for every pin sequence: each DMI capture reloads the register with status 0 or
      3; and status 0 after an accepted read, with no dmireset in between, comes with that read's Success
      data. */
  lemma CaptureIsFresh(env: Crossing, id: Word, t: nat, d: Dtm, pins: seq<Pin>)
    requires Orderly(env) && !d.fsm.error.OpFailed?
    requires var e := Drive(env, id, t, d, pins); e.tap.state.CaptureDr? && Select(e.tap.ir).Dmi?
    ensures var e, s := Drive(env, id, t, d, pins), StoryOf(env, id, t, d, pins);
            var r := DtmTick(e, id, false, false, env(t + |pins|)).dr;
            && (OpOf(r) == (false, false) || OpOf(r) == (true, true))
            && AddressOf(r) == e.fsm.address && DataOf(r) == e.fsm.data
            && (OpOf(r) == (false, false) && !s.NoRead? ==> s.Fresh? && DataOf(r) == s.data)
  {
    hide Drive, TapTick, FsmNext, StoryOf;
    StoryAlways(env, id, t, d, pins);
    var e := Drive(env, id, t, d, pins);
    FieldsOf([false, false], e.fsm.data, e.fsm.address);
    FieldsOf([true, true], e.fsm.data, e.fsm.address);
  }

  /** In general a DMI capture loads the register, whatever it held, exactly unless a failed operation is
      held and the machine is not busy: then the debugger reads back its own last word. */
  lemma CaptureLoads(f: Fsm, c: Cdc)
    ensures (forall r: Word41, s: Word41 :: DrNext(r, f, Capture, c, Dmi, false, false)
                    == DrNext(s, f, Capture, c, Dmi, false, false))
            <==> !f.error.OpFailed? || BusyNow(f, Capture, c)
  {
    if f.error.OpFailed? && !BusyNow(f, Capture, c) {
      var r: Word41, s: Word41 := Falses(41), [true] + Falses(40);
      assert r[0] != s[0];
      assert DrNext(r, f, Capture, c, Dmi, false, false) == r && DrNext(s, f, Capture, c, Dmi, false, false) == s;
    }
  }

  // ----- what of the crossing matters

  /** In every cycle of the pin sequence both crossings show the same to a machine that looks: room to one
      that offers a request, an answer to one that waits for it. */
  ghost predicate ShowTheSame(env: Crossing, other: Crossing, id: Word, t: nat, d: Dtm, pins: seq<Pin>) {
    forall k :: 0 <= k < |pins| ==>
      var f := Drive(env, id, t, d, pins[..k]).fsm;
      && (Offering(f.phase) ==> other(t + k).ready == env(t + k).ready)
      && (Waiting(f.phase) ==> other(t + k).reply == env(t + k).reply)
  }

  lemma OnlyLooksWhenAsking(d: Dtm, id: Word, pin: Pin, a: Cdc, b: Cdc)
    requires Offering(d.fsm.phase) ==> a.ready == b.ready
    requires Waiting(d.fsm.phase) ==> a.reply == b.reply
    ensures DtmTick(d, id, pin.tms, pin.tdi, a) == DtmTick(d, id, pin.tms, pin.tdi, b)
  {
    hide TapTick, DtmcsNext, EventOf, Select;
  }

  /** What a crossing shows while nothing is asked of it does not matter: a reply in some cycle stands for
      the reply a waiting machine would see in that cycle. */
  lemma {:induction false} OnlyAnswersMatter(env: Crossing, other: Crossing, id: Word, t: nat, d: Dtm, pins: seq<Pin>)
    requires ShowTheSame(env, other, id, t, d, pins)
    ensures Drive(env, id, t, d, pins) == Drive(other, id, t, d, pins)
    ensures Outputs(env, id, t, d, pins) == Outputs(other, id, t, d, pins)
    decreases |pins|
  {
    hide DtmTick, Tdo;
    var n := |pins| - 1;
    if n >= 0 {
      var p := pins[..n];
      forall k | 0 <= k < n ensures p[..k] == pins[..k] { }
      OnlyAnswersMatter(env, other, id, t, d, p);
      OnlyLooksWhenAsking(Drive(env, id, t, d, p), id, pins[n], env(t + n), other(t + n));
    }
  }

  predicate Offering(p: Phase) { p.Read? || p.Write? }

  // ----- how long answers take

  predicate ReadyWithin(env: Crossing, t: nat, l: nat) { exists u: nat :: t <= u < t + l && env(u).ready }

  predicate AnswerWithin(env: Crossing, t: nat, l: nat) { exists u: nat :: t <= u < t + l && env(u).reply.Some? }

  /** Within every l cycles a machine that offers a request finds room and one that waits gets its answer.
      What is said of cycles in which the machine does neither is without effect (OnlyAnswersMatter). */
  ghost predicate Timely(env: Crossing, l: nat) {
    (forall t: nat :: ReadyWithin(env, t, l)) && (forall t: nat :: AnswerWithin(env, t, l))
  }

  /** Moreover all answers are Success. */
  ghost predicate Prompt(env: Crossing, l: nat) {
    Timely(env, l) && forall t: nat :: env(t).reply.Some? ==> env(t).reply.value.status.Success?
  }

  /** A request still offered has found the crossing full all the time; likewise for an answer. */
  lemma {:induction false} StillOffering(env: Crossing, t: nat, f: Fsm, n: nat, k: nat)
    requires Offering(Settle(env, t, f, n).phase) && k < n
    ensures !env(t + k).ready
  {
    if k < n - 1 { StillOffering(env, t, f, n - 1, k); }
  }

  lemma {:induction false} StillWaiting(env: Crossing, t: nat, f: Fsm, n: nat, k: nat)
    requires Waiting(f.phase) && !Settle(env, t, f, n).phase.Idle? && k < n
    ensures env(t + k).reply.None?
  {
    WaitingStays(env, t, f, n - 1);
    if k < n - 1 { StillWaiting(env, t, f, n - 1, k); }
  }

  lemma {:induction false} WaitingStays(env: Crossing, t: nat, f: Fsm, n: nat)
    requires Waiting(f.phase)
    ensures Settle(env, t, f, n).phase == f.phase || Settle(env, t, f, n).phase.Idle?
  {
    if n > 0 { WaitingStays(env, t, f, n - 1); }
  }

  /** Left alone for twice l cycles, the machine is idle, whatever it was doing. */
  lemma SettledByThen(env: Crossing, l: nat, t: nat, f: Fsm, n: nat)
    requires Timely(env, l) && n >= 2 * l
    ensures Settle(env, t, f, n).phase.Idle?
  {
    hide FsmNext;
    var g := Settle(env, t, f, l);
    if Offering(g.phase) {
      assert ReadyWithin(env, t, l);
      var u: nat :| t <= u < t + l && env(u).ready;
      StillOffering(env, t, f, l, u - t);
    }
    SettleMore(env, t, f, l, n - l);
    if Waiting(g.phase) && !Settle(env, t + l, g, n - l).phase.Idle? {
      assert AnswerWithin(env, t + l, l);
      var u: nat :| t + l <= u < t + l + l && env(u).reply.Some?;
      StillWaiting(env, t + l, g, n - l, u - (t + l));
    }
    if g.phase.Idle? { IdleSettles(env, t + l, g, n - l); }
  }

  // ----- the backoff loop, one trial at a time

  lemma {:induction false} NeverFails(env: Crossing, t: nat, f: Fsm, n: nat)
    requires Orderly(env) && !f.error.OpFailed?
    ensures !Settle(env, t, f, n).error.OpFailed?
  {
    if n > 0 { NeverFails(env, t, f, n - 1); }
  }

  lemma ScanNeverFails(env: Crossing, t: nat, f: Fsm, n: nat, update: Event)
    requires Orderly(env) && !f.error.OpFailed?
    ensures !ScanFsm(env, t, f, n, update).error.OpFailed?
  {
    hide Settle;
    NeverFails(env, t, f, 2);
    NeverFails(env, t + 3, FsmNext(Settle(env, t, f, 2), Capture, env(t + 2)), n + 1);
  }

  /** A read task on an idle, error-free machine that waits long enough succeeds. */
  lemma LongWaitSucceeds(env: Crossing, l: nat, t: nat, f: Fsm, a: Word7, wait: nat)
    requires Prompt(env, l) && f.phase.Idle? && f.error.NoError? && wait >= 2 * l
    ensures OpOf(ReadResult(env, t, f, a, wait)) == (false, false)
  {
    hide Settle;
    var g := ScanFsm(env, t, f, 41, UpdateDmi(ReadWord(a)));
    IdleSettles(env, t, f, 2);
    IdleSettles(env, t + 3, f, 42);
    FieldsOf([true, false], Falses(32), a);
    var h := Settle(env, t + 46, g, wait + 2);
    SettleMore(env, t + 46, g, wait, 2);
    SettledByThen(env, l, t + 46, g, wait + 2);
    PromptReads(env, l, t + 46, g, wait + 2);
    FieldsOf([false, false], h.data, h.address);
  }

  /** With Success answers only, a read never leaves an error behind. */
  lemma {:induction false} PromptReads(env: Crossing, l: nat, t: nat, f: Fsm, n: nat)
    requires Prompt(env, l) && f.error.NoError?
    ensures Settle(env, t, f, n).error.NoError?
  {
    if n > 0 { PromptReads(env, l, t, f, n - 1); }
  }

  /** After a read task with a long enough wait the machine is idle, even if an older read was still in
      flight when this one began. */
  lemma LongWaitSettles(env: Crossing, l: nat, t: nat, g: Fsm, a: Word7, wait: nat)
    requires Prompt(env, l) && wait >= 2 * l
    ensures ScanFsm(env, t + wait, Settle(env, t, g, wait), 41, UpdateDmi(NopWord(a))).phase.Idle?
  {
    hide Settle;
    var h := Settle(env, t, g, wait);
    SettledByThen(env, l, t, g, wait);
    IdleSettles(env, t + wait, h, 2);
    IdleSettles(env, t + wait + 3, h, 42);
    FieldsOf([false, false], Falses(32), a);
  }

  /** Resetting the errors of an idle machine. */
  lemma ResetIdle(env: Crossing, t: nat, f: Fsm)
    requires f.phase.Idle?
    ensures var g := ScanFsm(env, t, f, 32, UpdateDtmcs(false, true)); g.phase.Idle? && g.error.NoError?
  {
    hide Settle;
    IdleSettles(env, t, f, 2);
    IdleSettles(env, t + 3, f, 33);
  }

  /** With orderly answers the status read back is 0 or 3. */
  lemma ResultIsOrderly(env: Crossing, t: nat, f: Fsm, a: Word7, wait: nat)
    requires Orderly(env) && !f.error.OpFailed?
    ensures var op := OpOf(ReadResult(env, t, f, a, wait)); op == (false, false) || op == (true, true)
  {
    hide Settle, ScanFsm;
    var g := ScanFsm(env, t, f, 41, UpdateDmi(ReadWord(a)));
    ScanNeverFails(env, t, f, 41, UpdateDmi(ReadWord(a)));
    SettleMore(env, t + 46, g, wait, 2);
    NeverFails(env, t + 46, g, wait + 2);
    var h := Settle(env, t + 46, g, wait + 2);
    FieldsOf([false, false], h.data, h.address);
    FieldsOf([true, true], h.data, h.address);
  }

  /** The traffic record only grows. */
  lemma {:induction false} GotGrows(env: Crossing, t: nat, f: Fsm, n: nat)
    ensures f.got <= Settle(env, t, f, n).got
  {
    if n > 0 { GotGrows(env, t, f, n - 1); }
  }

  lemma GotGrowsOnce(f: Fsm, ev: Event, c: Cdc)
    ensures f.got <= FsmNext(f, ev, c).got
  {
  }

  lemma GotGrowsInScan(env: Crossing, t: nat, f: Fsm, n: nat, update: Event)
    ensures f.got <= Settle(env, t, f, 2).got <= ScanFsm(env, t, f, n, update).got
  {
    hide Settle, FsmNext;
    var a := Settle(env, t, f, 2);
    var b := FsmNext(a, Capture, env(t + 2));
    GotGrows(env, t, f, 2);
    GotGrowsOnce(a, Capture, env(t + 2));
    GotGrows(env, t + 3, b, n + 1);
    GotGrowsOnce(Settle(env, t + 3, b, n + 1), update, env(t + n + 4));
  }

  /** Between two records the module has answered a read of a with Success and d. */
  ghost predicate ReadAnswered(before: seq<Exchange>, after: seq<Exchange>, a: Word7, d: Word) {
    exists k :: |before| <= k < |after| && after[k] == Exchange(Request(false, a, Falses(32)), Reply(d, Success))
  }

  /** A read task with status 0 has seen the read offered after its first scan, and the next answer after
      that is the one to this read. */
  lemma NextAnswer(env: Crossing, t: nat, f: Fsm, a: Word7, wait: nat)
    requires Orderly(env) && OpOf(ReadResult(env, t, f, a, wait)) == (false, false)
    ensures var g := ScanFsm(env, t, f, 41, UpdateDmi(ReadWord(a)));
            var e := ScanFsm(env, t + 46 + wait, Settle(env, t + 46, g, wait), 41, UpdateDmi(NopWord(a)));
            && g.phase.Read? && |g.got| < |e.got| && g.got <= e.got
            && e.got[|g.got|]
               == Exchange(Request(false, a, Falses(32)), Reply(DataOf(ReadResult(env, t, f, a, wait)), Success))
  {
    hide Settle, ScanFsm, ReadResult, Orderly;
    ReadIsAnswered(env, t, f, a, wait);
    var g := ScanFsm(env, t, f, 41, UpdateDmi(ReadWord(a)));
    var m, h := Settle(env, t + 46, g, wait), Settle(env, t + 46, g, wait + 2);
    var e := ScanFsm(env, t + 46 + wait, m, 41, UpdateDmi(NopWord(a)));
    SettleMore(env, t + 46, g, wait, 2);
    GotGrowsInScan(env, t + 46 + wait, m, 41, UpdateDmi(NopWord(a)));
    GotGrows(env, t + 46, g, wait + 2);
    NeverReserved(env, t + 46, g, wait + 2);
    assert e.got[|g.got|] == h.got[|g.got|];
  }

  /** A whole read task with orderly answers: status 0 comes with the answer to that read. */
  lemma ReadTask(env: Crossing, t: nat, f: Fsm, a: Word7, wait: nat)
    requires Orderly(env) && OpOf(ReadResult(env, t, f, a, wait)) == (false, false)
    ensures var g := ScanFsm(env, t, f, 41, UpdateDmi(ReadWord(a)));
            var e := ScanFsm(env, t + 46 + wait, Settle(env, t + 46, g, wait), 41, UpdateDmi(NopWord(a)));
            f.got <= e.got && ReadAnswered(f.got, e.got, a, DataOf(ReadResult(env, t, f, a, wait)))
  {
    hide Settle, ScanFsm, ReadResult;
    NextAnswer(env, t, f, a, wait);
    GotGrowsInScan(env, t, f, 41, UpdateDmi(ReadWord(a)));
  }

  /** With orderly answers every new record says Success or Busy. */
  lemma {:induction false} NeverReserved(env: Crossing, t: nat, f: Fsm, n: nat)
    requires Orderly(env)
    ensures var g := Settle(env, t, f, n);
            forall k :: |f.got| <= k < |g.got| ==> g.got[k].reply.status.Success? || g.got[k].reply.status.TooFast?
  {
    if n > 0 {
      NeverReserved(env, t, f, n - 1);
      GotGrows(env, t, f, n - 1);
    }
  }

  lemma {:induction false} PowerGrows(n: nat)
    ensures Pow2(n) > n
  {
    if n > 0 { PowerGrows(n - 1); }
  }

  /** Clearing the error, after an instruction change of gap cycles. */
  lemma AfterReset(env: Crossing, t: nat, f: Fsm, gap: nat)
    requires Orderly(env) && !f.error.OpFailed?
    ensures var g := ScanFsm(env, t + gap, Settle(env, t, f, gap), 32, UpdateDtmcs(false, true));
            f.got <= g.got && !g.error.OpFailed? && (f.phase.Idle? ==> g.phase.Idle? && g.error.NoError?)
  {
    hide Settle, ScanFsm;
    var s := Settle(env, t, f, gap);
    NeverFails(env, t, f, gap);
    ScanNeverFails(env, t + gap, s, 32, UpdateDtmcs(false, true));
    GotGrows(env, t, f, gap);
    GotGrowsInScan(env, t + gap, s, 32, UpdateDtmcs(false, true));
    if f.phase.Idle? {
      IdleSettles(env, t, f, gap);
      ResetIdle(env, t + gap, f);
    }
  }

  /** A read task, after an instruction change of gap cycles. */
  lemma AfterRead(env: Crossing, l: nat, t: nat, f: Fsm, gap: nat, a: Word7, wait: nat)
    requires Prompt(env, l) && Orderly(env) && !f.error.OpFailed?
    ensures var s := Settle(env, t, f, gap);
            var g := ScanFsm(env, t + gap, s, 41, UpdateDmi(ReadWord(a)));
            var e := ScanFsm(env, t + gap + 46 + wait, Settle(env, t + gap + 46, g, wait), 41, UpdateDmi(NopWord(a)));
            var op := OpOf(ReadResult(env, t + gap, s, a, wait));
            && f.got <= e.got && !e.error.OpFailed? && (op == (false, false) || op == (true, true))
            && (wait >= 2 * l ==> e.phase.Idle?)
            && (wait >= 2 * l && f.phase.Idle? && f.error.NoError? ==> op == (false, false))
  {
    hide Settle, ScanFsm, ReadResult, Prompt;
    var s := Settle(env, t, f, gap);
    var g := ScanFsm(env, t + gap, s, 41, UpdateDmi(ReadWord(a)));
    var m := Settle(env, t + gap + 46, g, wait);
    NeverFails(env, t, f, gap);
    ScanNeverFails(env, t + gap, s, 41, UpdateDmi(ReadWord(a)));
    NeverFails(env, t + gap + 46, g, wait);
    ScanNeverFails(env, t + gap + 46 + wait, m, 41, UpdateDmi(NopWord(a)));
    GotGrows(env, t, f, gap);
    GotGrowsInScan(env, t + gap, s, 41, UpdateDmi(ReadWord(a)));
    GotGrows(env, t + gap + 46, g, wait);
    GotGrowsInScan(env, t + gap + 46 + wait, m, 41, UpdateDmi(NopWord(a)));
    ResultIsOrderly(env, t + gap, s, a, wait);
    if wait >= 2 * l {
      LongWaitSettles(env, l, t + gap + 46, g, a, wait);
      if f.phase.Idle? && f.error.NoError? {
        IdleSettles(env, t, f, gap);
        LongWaitSucceeds(env, l, t + gap, f, a, wait);
      }
    }
  }
}

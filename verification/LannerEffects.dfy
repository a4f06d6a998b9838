/** What each event does to the shared state of the handler: replies, the start and end of a
    transaction, requests. */
module LannerEffects {
  import opened LannerModel

  // ----- replies -----

  /** The command has gone out, or the rest of it waits; nothing else of the state has changed. */
  predicate Sending(sh: Shared, e: Effect, w: WriteResult) {
    var written := sh.progress + if w.Room? then w.n else 0;
    && (e.sent <==> w.Room? && written >= Length(sh.cmd))
    && e.sh == sh.(progress := if e.sent then 0 else written, out := !e.sent)
  }

  /** An error in front of a whole command is not answered; behind one the command is written
      again. */
  lemma ErrorDecided(sh: Shared, w: WriteResult)
    ensures var e := HandleMsg(sh, ErrorReply, w);
            if sh.progress > 0 then e == Effect(sh, false) else Sending(sh, e, w)
  {
    hide CreateMask, OkReplied, Length;
  }

  lemma VersionDecided(sh: Shared, w: WriteResult)
    ensures var e := HandleMsg(sh, VersionReply, w);
            if sh.state != GET_VERSION then e == Effect(sh, false)
            else Sending(sh.(state := GET_DIGITAL_OUT, cmd := GetDigitalOut), e, w)
  {
    hide CreateMask, OkReplied, Length;
  }

  lemma MaskDecided(sh: Shared, m: Mask, w: WriteResult)
    ensures var e := HandleMsg(sh, MaskReply(m), w);
            if sh.state != GET_DIGITAL_OUT then e == Effect(sh, false)
            else
              Sending(sh.(state := SET_DIGITAL_OUT, mask := m, toWrite := e.sh.toWrite, cmd := SetDigitalOut(e.sh.toWrite)), e, w)
  {
    hide CreateMask, OkReplied, WriteCmd, Sending;
    var t := CreateMask(sh.ports, sh.pending, m);
    WriteSends(sh.(state := SET_DIGITAL_OUT, mask := m, toWrite := t, cmd := SetDigitalOut(t)), w);
    WritesMask(sh.(state := SET_DIGITAL_OUT, mask := m, toWrite := t, cmd := SetDigitalOut(t)), w);
  }

  /** What an OK does to the ports is in `Outcome`. */
  lemma OkDecided(sh: Shared, w: WriteResult)
    ensures var e := HandleMsg(sh, OkReply, w);
            if sh.state != SET_DIGITAL_OUT then e == Effect(sh, false)
            else
              && !e.sent && e.sh.mask == sh.toWrite && e.sh.toWrite == 0 && e.sh.cmd == sh.cmd
              && e.sh.out == sh.out && e.sh.locked == sh.locked && e.sh.progress == sh.progress
              && (if e.sh.pending == 0 then e.sh.state == UPDATE_DONE && e.sh.itr && e.sh.timer == sh.timer
                  else e.sh.state == SET_DIGITAL_OUT && e.sh.timer && e.sh.itr == sh.itr)
  {
    hide CreateMask, OkPorts, OkPending;
  }

  // ----- starting and ending -----

  /** The callback that has come is over. */
  function Called(sh: Shared, e: Event): Shared {
    sh.(itr := sh.itr && !e.Iterate?, timer := sh.timer && !e.Timer?)
  }

  /** The rest of the command fits into the write. */
  predicate Sent(s: Sys, e: Event)
    requires e.Iterate? || e.Timer?
  {
    e.w.Room? && s.sh.progress + e.w.n >= Length(Step(s, e).sh.cmd)
  }

  lemma WritesMask(sh: Shared, w: WriteResult)
    ensures WriteCmd(sh, w).sh.toWrite == sh.toWrite
  {
    hide Length;
  }

  lemma WriteSends(sh: Shared, w: WriteResult)
    ensures Sending(sh, WriteCmd(sh, w), w)
  {
    hide Length;
  }

  lemma PendingStarts(sh: Shared, lockOk: bool, openOk: bool, w: WriteResult)
    requires sh.state == PENDING
    ensures var e := StartUpdate(sh, lockOk, openOk, w);
            if lockOk && openOk then Sending(sh.(locked := true, state := GET_VERSION, cmd := GetVersion), e, w)
            else e == Effect(sh.(timer := true, locked := sh.locked && !lockOk), false)
  {
    hide WriteCmd, Sending, SetOut;
    WriteSends(sh.(locked := true, state := GET_VERSION, cmd := GetVersion), w);
  }

  /** In the midst of a transaction the command of the state is written. */
  lemma MidwayWrites(sh: Shared, lockOk: bool, openOk: bool, w: WriteResult)
    requires sh.state in {GET_VERSION, GET_DIGITAL_OUT, SET_DIGITAL_OUT}
    ensures var e := StartUpdate(sh, lockOk, openOk, w);
            match sh.state
            case GET_VERSION => Sending(sh.(cmd := GetVersion), e, w)
            case GET_DIGITAL_OUT => Sending(sh.(cmd := GetDigitalOut), e, w)
            case _ => Sending(sh.(toWrite := e.sh.toWrite, cmd := SetDigitalOut(e.sh.toWrite)), e, w)
  {
    hide WriteCmd, CreateMask, Length;
    WriteSends(sh.(cmd := GetVersion), w);
    WriteSends(sh.(cmd := GetDigitalOut), w);
    var m := CreateMask(sh.ports, sh.pending, sh.mask);
    WriteSends(sh.(toWrite := m, cmd := SetDigitalOut(m)), w);
  }

  /** The step of a callback, before the mask at the lock is noted. */
  lemma CallbackStep(s: Sys, e: Event)
    requires e.Iterate? || e.Timer?
    ensures var o := if e.Iterate? then IterCb(s.sh, e.lockOk, e.openOk, e.w) else PrivateTimeout(s.sh, e.lockOk, e.openOk, e.w);
            Step(s, e) == Sys(o.sh, s.mcu, s.waiting || o.sent, if o.sh.locked && !s.sh.locked then s.mcu else s.base, s.touched)
  {
    hide IterCb, PrivateTimeout, UpdatePort, HandleMsg, WriteCmd, With, Accepts;
  }

  /** A batch that waits is only started with the file locked and the device open, and is
      otherwise tried again when the timer fires; then the lock is not kept. */
  lemma StartDecided(s: Sys, e: Event)
    requires (e.Iterate? || e.Timer?) && s.sh.state == PENDING && !s.sh.locked
    ensures var r := Step(s, e);
            && r.mcu == s.mcu && r.touched == s.touched
            && if e.lockOk && e.openOk then
                 && Sending(Called(s.sh, e).(locked := true, state := GET_VERSION, cmd := GetVersion), Effect(r.sh, Sent(s, e)), e.w)
                 && r.waiting == (s.waiting || Sent(s, e)) && r.base == s.mcu
               else r.sh == Called(s.sh, e).(timer := true) && r.waiting == s.waiting && r.base == s.base
  {
    hide Step, StartUpdate, Length;
    CallbackStep(s, e);
    PendingStarts(s.sh, e.lockOk, e.openOk, e.w);
    PendingStarts(s.sh.(timer := false), e.lockOk, e.openOk, e.w);
  }

  /** Behind a transaction the lock is given up; and while no program holds it, another one may
      change the MCU. */
  lemma LockGivenUp(s: Sys, e: Event)
    requires e.Iterate? && s.sh.state == UPDATE_DONE
    ensures var r := Step(s, e);
            r == s.(sh := Called(s.sh, e).(locked := false, state := IDLE))
    ensures forall m: Mask :: Step(s, Outside(m)) == s.(mcu := m)
  {
    hide CreateMask, Length, StartUpdate;
  }

  // ----- requests -----

  /** A request is accepted exactly while no transaction runs; then the port awaits just this
      command, and the handler is sure to take it up. */
  lemma RequestDecided(s: Sys, i: nat, cmd: Cmd)
    requires i < |s.sh.ports|
    ensures var r := Step(s, Request(i, cmd));
            if s.sh.state != IDLE && s.sh.state != PENDING then r == s
            else
              && r.sh.state == PENDING && (r.sh.itr || r.sh.timer) && r.sh.timer == s.sh.timer
              && r.sh.ports == s.sh.ports[i := r.sh.ports[i]]
              && r.sh.ports[i].curCmd == cmd
              && (if cmd == CMD_RESTART then r.sh.ports[i].restartCmd == CMD_DISABLE && r.sh.ports[i].msgMode == RESET
                  else r.sh.ports[i] == s.sh.ports[i].(curCmd := cmd))
              && r.sh.ports[i].enabled == s.sh.ports[i].enabled && r.sh.ports[i].pwr == s.sh.ports[i].pwr
              && r.mcu == s.mcu && r.waiting == s.waiting
  {
    hide Step, UpdatePort, With;
    RequestStep(s, i, cmd);
    if Accepts(s.sh) {
      PortAsked(s.sh, i, cmd);
    }
  }

  /** Its bit joins those that wait. */
  lemma RequestPending(s: Sys, i: nat, cmd: Cmd)
    requires i < |s.sh.ports|
    ensures Step(s, Request(i, cmd)).sh.pending ==
            if s.sh.state == IDLE || s.sh.state == PENDING then s.sh.pending | s.sh.ports[i].bit else s.sh.pending
  {
    hide Step;
    RequestStep(s, i, cmd);
  }

  lemma PortAsked(sh: Shared, i: nat, cmd: Cmd)
    requires i < |sh.ports| && Accepts(sh)
    ensures var r := UpdatePort(sh, i, cmd);
            && r.state == PENDING && (r.itr || r.timer) && r.timer == sh.timer
            && r.ports == sh.ports[i := r.ports[i]]
            && r.ports[i].curCmd == cmd
            && (if cmd == CMD_RESTART then r.ports[i].restartCmd == CMD_DISABLE && r.ports[i].msgMode == RESET
                else r.ports[i] == sh.ports[i].(curCmd := cmd))
            && r.ports[i].enabled == sh.ports[i].enabled && r.ports[i].pwr == sh.ports[i].pwr
            && r.locked == sh.locked
  {
  }

  lemma RequestStep(s: Sys, i: nat, cmd: Cmd)
    requires i < |s.sh.ports|
    ensures var r := Step(s, Request(i, cmd));
            if Accepts(s.sh) then
              r == s.(sh := UpdatePort(s.sh, i, cmd), touched := With(if s.sh.state == IDLE then 0 else s.touched, s.sh.ports[i].bit))
            else r == s
  {
    hide UpdatePort;
  }

  lemma OthersDoNotLock(s: Sys, e: Event)
    requires !e.Iterate? && !e.Timer? && s.sh.state == PENDING
    ensures Step(s, e).sh.locked == s.sh.locked
  {
    hide HandleMsg, WriteCmd, UpdatePort, Length, IterCb, PrivateTimeout;
    match e
    case Request(i, cmd) =>
      if i < |s.sh.ports| && Accepts(s.sh) {
        PortAsked(s.sh, i, cmd);
      }
    case Writable(w) => WriteSends(s.sh, w);
    case McuReply(ok, w) =>
      ErrorDecided(s.sh, w);
      VersionDecided(s.sh, w);
      MaskDecided(s.sh, s.mcu, w);
      OkDecided(s.sh, w);
    case _ =>
  }
}

/** The host code of amd_smu.c and amd_zen.c, step by step, proved to compute the functions of
    the protocol model. */
module SmuHost {
  import opened Smu
  import opened Wrappers

  class Driver {
    const cfg: Config
    var mp1: Box
    var rsmu: Box
    var index: nat
    var io: seq<bool>
    var fw: seq<seq<Done>>
    var polls: nat

    function State(): World
      reads this
    {
      World(cfg, mp1, rsmu, index, io, fw, polls)
    }

    constructor (w: World)
      ensures State() == w
    {
      cfg := w.cfg;
      mp1, rsmu, index, io, fw, polls := w.mp1, w.rsmu, w.index, w.io, w.fw, w.polls;
    }

    method Set(w: World)
      requires w.cfg == cfg
      modifies this
      ensures State() == w
    {
      mp1, rsmu, index, io, fw, polls := w.mp1, w.rsmu, w.index, w.io, w.fw, w.polls;
    }

    /** pci_write_dword to the SMN index register, after the firmware's turn. */
    method PciWriteIndex(addr: nat) returns (ok: bool)
      modifies this
      ensures State() == WriteIndex(old(State()), addr) && ok == Succeeds(old(State()))
    {
      ok := Succeeds(State());
      TurnKeepsHost(State());
      Set(Turn(State()));
      if ok {
        index := addr;
      }
    }

    /** pci_write_dword to the SMN data register. */
    method PciWriteData(v: Word) returns (ok: bool)
      modifies this
      ensures State() == WriteData(old(State()), v) && ok == Succeeds(old(State()))
    {
      ok := Succeeds(State());
      TurnKeepsHost(State());
      Set(Turn(State()));
      if ok {
        Set(Store(State(), index, v));
      }
    }

    /** pci_read_dword of the SMN data register. */
    method PciReadData() returns (ok: bool, v: Word)
      modifies this
      ensures State() == Turn(old(State())) && ok == Succeeds(old(State()))
      ensures index == old(index)
      ensures ok ==> v == Load(State(), index)
    {
      ok := Succeeds(State());
      TurnKeepsHost(State());
      Set(Turn(State()));
      v := Load(State(), index);
    }

    method SmnReadDword(addr: nat) returns (ok: bool, v: Word)
      modifies this
      ensures (State(), if ok then Some(v) else None) == SmnRead(old(State()), addr)
    {
      hide Turn, Load;
      v := 0;
      ok := PciWriteIndex(addr);
      if !ok {
        return;
      }
      ok, v := PciReadData();
    }

    method SmnWriteDword(addr: nat, v: Word) returns (ok: bool)
      modifies this
      ensures (State(), ok) == SmnWrite(old(State()), addr, v)
    {
      hide Turn, Store;
      ok := PciWriteIndex(addr);
      if !ok {
        return;
      }
      ok := PciWriteData(v);
    }

    /** smu_send_command; the ghost result tells whether the unchecked clear took effect. */
    method SendCommand(m: Mailbox, cmd: Word, args: seq<Word>) returns (rsp: Word, ghost cleared: bool)
      modifies this
      ensures Sent(State(), rsp, cleared) == Send(old(State()), m, cmd, args)
    {
      hide SmnRead, SmnWrite;
      ghost var w0 := State();
      var ok: bool;
      rsp, cleared := 0, true;
      var timeout := 0;
      while timeout < SMU_TIMEOUT
        invariant 0 <= timeout <= SMU_TIMEOUT
        invariant Poll(w0, m.rsp, SMU_TIMEOUT) == Poll(State(), m.rsp, SMU_TIMEOUT - timeout)
      {
        polls := polls + 1;
        ok, rsp := SmnReadDword(m.rsp);
        if !ok {
          return 0, true;
        }
        if rsp != 0 {
          break;
        }
        timeout := timeout + 1;
      }
      if timeout >= SMU_TIMEOUT {
        return 0, true;
      }
      assert Poll(w0, m.rsp, SMU_TIMEOUT) == (State(), Some(rsp));

      cleared := SmnWriteDword(m.rsp, 0);

      ghost var w2 := State();
      var i := 0;
      while i < |args| && i < 6
        invariant 0 <= i
        invariant WriteArgs(w2, m.arg, args, 0) == WriteArgs(State(), m.arg, args, i)
      {
        ok := SmnWriteDword(m.arg + i * 4, args[i]);
        if !ok {
          return 0, cleared;
        }
        i := i + 1;
      }

      ok := SmnWriteDword(m.msg, cmd);
      if !ok {
        return 0, cleared;
      }

      ghost var w4 := State();
      timeout := 0;
      while timeout < SMU_TIMEOUT
        invariant 0 <= timeout <= SMU_TIMEOUT
        invariant Poll(w4, m.rsp, SMU_TIMEOUT) == Poll(State(), m.rsp, SMU_TIMEOUT - timeout)
      {
        polls := polls + 1;
        ok, rsp := SmnReadDword(m.rsp);
        if !ok {
          return 0, cleared;
        }
        if rsp != 0 {
          break;
        }
        timeout := timeout + 1;
      }
      if timeout >= SMU_TIMEOUT {
        return 0, cleared;
      }
    }

    method ReadVersion(m: Mailbox, cmd: Word) returns (version: Word)
      modifies this
      ensures (State(), version) == GetVersion(old(State()), m, cmd)
    {
      hide Send, SmnRead;
      ghost var cleared: bool;
      var rsp: Word;
      rsp, cleared := SendCommand(m, cmd, []);
      if rsp != 1 {
        return 0;
      }
      var ok, v := SmnReadDword(m.arg);
      version := if ok then v else 0;
    }

    method ReadDramBase() returns (base: nat)
      modifies this
      ensures (State(), base) == GetDramBase(old(State()))
    {
      hide Send, SmnRead;
      ghost var cleared: bool;
      var rsp: Word;
      rsp, cleared := SendCommand(cfg.rsmu, cfg.cmdGetDramBase, []);
      if rsp != 1 {
        return 0;
      }
      var okLo, lo := SmnReadDword(cfg.rsmu.arg);
      var okHi, hi := SmnReadDword(cfg.rsmu.arg + 4);
      base := Wide(if okHi then hi else 0, if okLo then lo else 0);
    }

    method TransferTableToDram() returns (ok: bool)
      modifies this
      ensures (State(), ok) == TransferTable(old(State()))
    {
      hide Send;
      ghost var cleared: bool;
      var rsp: Word;
      rsp, cleared := SendCommand(cfg.rsmu, cfg.cmdTransferToDram, [cfg.cmdTransferArg0]);
      ok := rsp == 1;
    }
  }

  lemma {:induction false} FinishAllKeepsHost(w: World, done: seq<Done>)
    ensures FinishAll(w, done).cfg == w.cfg && FinishAll(w, done).index == w.index
    decreases |done|
  {
    if done != [] {
      FinishAllKeepsHost(w.With(done[0].box, w.At(done[0].box).Finish(done[0].reply)), done[1..]);
    }
  }

  lemma {:induction false} TurnKeepsHost(w: World)
    ensures Turn(w).cfg == w.cfg && Turn(w).index == w.index
  {
    if w.fw != [] {
      FinishAllKeepsHost(w, w.fw[0]);
    }
  }
}

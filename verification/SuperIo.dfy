/** What the Super I/O readers share: register files and the result record, fixed arrays with counters. */
module SuperIo {
  type Byte = v: nat | v < 256

  /** A byte read, or -1 if the read fails */
  type Reading = v: int | -1 <= v < 256

  /** What reading each register gives */
  type RegisterFile = nat -> Reading

  function Stored(file: RegisterFile, at: nat, v: Byte): RegisterFile {
    (r: nat) => if r == at then v else file(r)
  }

  /** (signed char)v */
  function Signed8(v: int): int {
    if v % 256 < 128 then v % 256 else v % 256 - 256
  }

  const MAX_TEMPS := 8
  const MAX_FANS := 7
  const MAX_VOLTAGES := 16

  class SuperIoResult {
    const temperatures: array<int>
    const fanRpms: array<int>
    const voltages: array<real>
    var count: nat
    var fanCount: nat
    var voltageCount: nat
    var ok: bool
    var chipId: nat
    var chipName: string
    var error: string

    ghost predicate Valid()
      reads this
    {
      && temperatures.Length == MAX_TEMPS && fanRpms.Length == MAX_FANS && voltages.Length == MAX_VOLTAGES
      && temperatures != fanRpms
      && count <= MAX_TEMPS && fanCount <= MAX_FANS && voltageCount <= MAX_VOLTAGES
    }

    function Temps(): seq<int>
      requires count <= temperatures.Length
      reads this, temperatures
    {
      temperatures[..count]
    }

    function Fans(): seq<int>
      requires fanCount <= fanRpms.Length
      reads this, fanRpms
    {
      fanRpms[..fanCount]
    }

    function Volts(): seq<real>
      requires voltageCount <= voltages.Length
      reads this, voltages
    {
      voltages[..voltageCount]
    }

    constructor ()
      ensures Valid() && fresh(temperatures) && fresh(fanRpms) && fresh(voltages)
      ensures Temps() == [] && Fans() == [] && Volts() == [] && !ok
    {
      temperatures := new int[MAX_TEMPS];
      fanRpms := new int[MAX_FANS];
      voltages := new real[MAX_VOLTAGES];
      count, fanCount, voltageCount := 0, 0, 0;
      ok, chipId, chipName, error := false, 0, "", "";
    }

    method AddTemp(t: int)
      requires Valid() && count < MAX_TEMPS
      modifies this`count, temperatures
      ensures Valid() && Temps() == old(Temps()) + [t]
    {
      temperatures[count] := t;
      count := count + 1;
    }

    method AddFan(rpm: int)
      requires Valid() && fanCount < MAX_FANS
      modifies this`fanCount, fanRpms
      ensures Valid() && Fans() == old(Fans()) + [rpm]
    {
      fanRpms[fanCount] := rpm;
      fanCount := fanCount + 1;
    }

    method AddVolt(v: real)
      requires Valid() && voltageCount < MAX_VOLTAGES
      modifies this`voltageCount, voltages
      ensures Valid() && Volts() == old(Volts()) + [v]
    {
      voltages[voltageCount] := v;
      voltageCount := voltageCount + 1;
    }
  }
}

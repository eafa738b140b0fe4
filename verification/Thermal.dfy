/** Thermal zones of phones and ARM boards (soc_linux.c, soc_math.h). */
module Thermal {
  import opened Wrappers
  import opened Sequences

  /** What sysfs holds under one zone number: nothing, a type whose temperature cannot be read, or
      both. Type names are C strings, so they hold no NUL. */
  datatype ZoneDir = Missing | TypeOnly(kind: string) | Full(kind: string, raw: int)

  /** hwsense_thermal_zone_t */
  datatype Zone = Zone(kind: string, celsius: real)

  type Tree = nat -> ZoneDir

  const ZONE_MAX := 256

  /** hwsense_thermal_decode: exactly these raw values are temperatures. */
  function Decode(raw: int): (c: Option<real>)
    ensures c.Some? <==>
            || -40000 <= raw <= -1000 || -40 <= raw <= -1
            || 1 <= raw <= 150 || 1000 <= raw <= 150000
    ensures c.Some? && -150 <= raw <= 150 ==> c.value == raw as real
    ensures c.Some? && (raw <= -1000 || raw >= 1000) ==> c.value * 1000.0 == raw as real
  {
    if raw == 0 then None
    else
      var c := if -1000 < raw < 1000 then raw as real else raw as real / 1000.0;
      if c < -40.0 || c > 150.0 then None else Some(c)
  }

  // ---- Zone types ------------------------------------------------------------------

  const NUL := '\0'

  function CharAt(s: string): char {
    if s == "" then NUL else s[0]
  }

  function Rest(s: string): string {
    if s == "" then "" else s[1..]
  }

  /** strncmp(a, b, n) == 0 */
  predicate SameUpTo(a: string, b: string, n: nat) {
    n == 0 || (CharAt(a) == CharAt(b) && (CharAt(a) == NUL || SameUpTo(Rest(a), Rest(b), n - 1)))
  }

  /** hwsense_zone_type_starts */
  predicate Starts(kind: string, prefix: string) {
    SameUpTo(kind, prefix, |prefix|)
  }

  lemma {:induction false} StartsIffPrefix(kind: string, prefix: string)
    requires NUL !in kind && NUL !in prefix
    ensures Starts(kind, prefix) <==> prefix <= kind
  {
    if prefix != "" && kind != "" && kind[0] == prefix[0] {
      StartsIffPrefix(kind[1..], prefix[1..]);
      assert kind == [kind[0]] + kind[1..] && prefix == [prefix[0]] + prefix[1..];
    }
  }

  datatype Sensor = Cpu | Gpu

  /** hwsense_thermal_is_cpu_zone, hwsense_thermal_is_gpu_zone */
  predicate Matches(sensor: Sensor, kind: string) {
    match sensor
    case Cpu =>
      Starts(kind, "cpu") || Starts(kind, "mtktscpu") || Starts(kind, "x86_pkg_temp")
      || Starts(kind, "soc-thermal") || Starts(kind, "soc_thermal")
    case Gpu => Starts(kind, "gpu")
  }

  /** Which names are sensors of the CPU and the GPU */
  lemma MatchesIff(kind: string)
    requires NUL !in kind
    ensures Matches(Cpu, kind) <==>
              "cpu" <= kind || "mtktscpu" <= kind || "x86_pkg_temp" <= kind
              || "soc-thermal" <= kind || "soc_thermal" <= kind
    ensures Matches(Gpu, kind) <==> "gpu" <= kind
  {
    hide Starts;
    StartsIffPrefix(kind, "cpu");
    StartsIffPrefix(kind, "mtktscpu");
    StartsIffPrefix(kind, "x86_pkg_temp");
    StartsIffPrefix(kind, "soc-thermal");
    StartsIffPrefix(kind, "soc_thermal");
    StartsIffPrefix(kind, "gpu");
  }

  // ---- Scanning ----------------------------------------------------------------------

  /** read_zone, as the zone it reports: None both for a missing and for a silent zone. */
  function ReadZone(tree: Tree, idx: nat): Option<Zone> {
    match tree(idx)
    case Missing => None
    case TypeOnly(_) => None
    case Full(kind, raw) =>
      var c := Decode(raw);
      if c.None? then None else Some(Zone(kind, c.value))
  }

  /** Exactly which zones report, and what: a zone with a raw value below 1000 shows that many degrees,
      any other that many thousandths, if that is a plausible temperature. */
  lemma ReportsIff(tree: Tree, idx: nat, z: Zone)
    ensures ReadZone(tree, idx) == Some(z) <==>
              && tree(idx).Full? && tree(idx).kind == z.kind && tree(idx).raw != 0
              && -40.0 <= z.celsius <= 150.0
              && if -1000 < tree(idx).raw < 1000 then z.celsius == tree(idx).raw as real
                 else z.celsius * 1000.0 == tree(idx).raw as real
  {
  }

  /** The zones below number n that report, in order. */
  function Valid(tree: Tree, n: nat): seq<Zone> {
    if n == 0 then []
    else Valid(tree, n - 1) + if ReadZone(tree, n - 1).Some? then [ReadZone(tree, n - 1).value] else []
  }

  /** Their numbers */
  function Numbers(tree: Tree, n: nat): seq<nat> {
    if n == 0 then []
    else Numbers(tree, n - 1) + if ReadZone(tree, n - 1).Some? then [n - 1] else []
  }

  /** Valid is the in-order filter: each entry is what its number reports, the numbers increase, and
      no number that reports is left out. */
  lemma {:induction false} ValidIsFilter(tree: Tree, n: nat)
    ensures |Valid(tree, n)| == |Numbers(tree, n)|
    ensures forall k :: 0 <= k < |Numbers(tree, n)| ==>
              Numbers(tree, n)[k] < n && ReadZone(tree, Numbers(tree, n)[k]) == Some(Valid(tree, n)[k])
    ensures forall j, k :: 0 <= j < k < |Numbers(tree, n)| ==> Numbers(tree, n)[j] < Numbers(tree, n)[k]
    ensures forall idx: nat :: idx < n && ReadZone(tree, idx).Some? ==> idx in Numbers(tree, n)
  {
    if n > 0 {
      ValidIsFilter(tree, n - 1);
    }
  }

  lemma {:induction false} ValidGrows(tree: Tree, m: nat, n: nat)
    requires m <= n
    ensures Valid(tree, m) <= Valid(tree, n)
  {
    if m < n {
      ValidGrows(tree, m, n - 1);
    }
  }

  /** hwsense_thermal_scan: the first max zones that report */
  method Scan(tree: Option<Tree>, out: array?<Zone>, max: int) returns (n: int)
    requires out != null ==> max <= out.Length
    modifies out
    ensures tree.None? || out == null || max <= 0 ==> n == 0 && (out != null ==> out[..] == old(out[..]))
    ensures tree.Some? && out != null && max > 0 ==>
              && 0 <= n <= max
              && out[..n] == Cut(Valid(tree.value, ZONE_MAX), max)
              && out[n..] == old(out[n..])
  {
    n := 0;
    if tree.None? || out == null || max <= 0 {
      return;
    }
    var idx := 0;
    while idx < ZONE_MAX && n < max
      invariant 0 <= idx <= ZONE_MAX && 0 <= n <= max
      invariant out[..n] == Valid(tree.value, idx)
      invariant out[n..] == old(out[n..])
    {
      var z := ReadZone(tree.value, idx);
      idx := idx + 1;
      if z.None? {
        continue;
      }
      out[n] := z.value;
      n := n + 1;
    }
    ValidGrows(tree.value, idx, ZONE_MAX);
  }

  // ---- The hottest zone ----------------------------------------------------------------

  /** c is the maximum over the matching zones of the list. */
  ghost predicate IsHottest(zones: seq<Zone>, sensor: Sensor, c: real) {
    && (exists z :: z in zones && Matches(sensor, z.kind) && z.celsius == c)
    && forall z :: z in zones && Matches(sensor, z.kind) ==> z.celsius <= c
  }

  ghost predicate HasSensor(zones: seq<Zone>, sensor: Sensor) {
    exists z :: z in zones && Matches(sensor, z.kind)
  }

  /** hottest_zone: succeeds exactly when the uncut scan lists a matching zone, and then returns the
      maximum, also below zero. */
  method HottestZone(tree: Tree, sensor: Sensor) returns (celsius: Option<real>)
    ensures celsius.Some? <==> HasSensor(Valid(tree, ZONE_MAX), sensor)
    ensures celsius.Some? ==> IsHottest(Valid(tree, ZONE_MAX), sensor, celsius.value)
  {
    hide Matches;
    var best, found := 0.0, false;
    var idx := 0;
    while idx < ZONE_MAX
      invariant 0 <= idx <= ZONE_MAX
      invariant found <==> HasSensor(Valid(tree, idx), sensor)
      invariant found ==> IsHottest(Valid(tree, idx), sensor, best)
    {
      var z := ReadZone(tree, idx);
      ghost var before := Valid(tree, idx);
      idx := idx + 1;
      assert Valid(tree, idx) == before + if z.Some? then [z.value] else [];
      if z.None? || !Matches(sensor, z.value.kind) {
        assert forall y :: y in before ==> y in Valid(tree, idx);
        continue;
      }
      assert z.value in Valid(tree, idx);
      if !found || z.value.celsius > best {
        best := z.value.celsius;
      }
      found := true;
    }
    celsius := if found then Some(best) else None;
  }
}

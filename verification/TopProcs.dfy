/** The processes with the largest memory use or CPU time (win_sysstats.c). */
module TopProcesses {
  import opened Wrappers

  /** A process in the snapshot. A protected process cannot be opened; of an opened one, either
      query may fail. */
  datatype Process = Process(
    pid: nat, name: string, accessible: bool, cpuSeconds: Option<real>, workingSetMb: Option<real>)

  /** win_process_t */
  datatype Row = Row(pid: nat, name: string, cpuSeconds: real, workingSetMb: real)

  datatype Order = ByMemory | ByCpu

  function OrZero(accessible: bool, v: Option<real>): real {
    if accessible && v.Some? then v.value else 0.0
  }

  function RowOf(p: Process): Row {
    Row(p.pid, p.name, OrZero(p.accessible, p.cpuSeconds), OrZero(p.accessible, p.workingSetMb))
  }

  /** One row a process: what cannot be queried is listed with zeros, not dropped. */
  function Rows(ps: seq<Process>): (rows: seq<Row>)
    ensures |rows| == |ps|
    ensures forall k :: 0 <= k < |ps| ==> rows[k].pid == ps[k].pid && rows[k].name == ps[k].name
    ensures forall k :: 0 <= k < |ps| && !ps[k].accessible ==> rows[k].cpuSeconds == rows[k].workingSetMb == 0.0
    ensures forall k :: 0 <= k < |ps| && ps[k].accessible ==>
              && rows[k].cpuSeconds == (match ps[k].cpuSeconds case Some(v) => v case None => 0.0)
              && rows[k].workingSetMb == (match ps[k].workingSetMb case Some(v) => v case None => 0.0)
  {
    seq(|ps|, (k: nat) requires k < |ps| => RowOf(ps[k]))
  }

  function Key(r: Row, order: Order): real {
    if order == ByCpu then r.cpuSeconds else r.workingSetMb
  }

  predicate Descending(s: seq<Row>, order: Order) {
    forall i, j :: 0 <= i < j < |s| ==> Key(s[i], order) >= Key(s[j], order)
  }

  /** How many of n rows are collected when the growth attempts turn out as in grows (none left: out
      of memory): all of them, or as many as fit before the first growth that fails. */
  function Collected(n: nat, capacity: nat, grows: seq<bool>): (c: nat)
    ensures c <= n
    ensures n <= capacity ==> c == n
    ensures capacity < n ==> c >= capacity
    decreases |grows|
  {
    if n <= capacity then n
    else if grows == [] || !grows[0] then capacity
    else Collected(n, if capacity == 0 then 128 else capacity * 2, grows[1..])
  }

  /** If no growth fails, every process counts. */
  lemma {:induction false} AllCollected(n: nat, capacity: nat, grows: seq<bool>)
    requires (forall k :: 0 <= k < |grows| ==> grows[k]) && n <= |grows|
    ensures Collected(n, capacity, grows) == n
    decreases n - capacity
  {
    GrowsEnough(n, capacity, grows, n);
  }

  lemma {:induction false} GrowsEnough(n: nat, capacity: nat, grows: seq<bool>, short: nat)
    requires (forall k :: 0 <= k < |grows| ==> grows[k]) && short <= |grows| && n <= capacity + short
    ensures Collected(n, capacity, grows) == n
    decreases short
  {
    if capacity < n {
      GrowsEnough(n, if capacity == 0 then 128 else capacity * 2, grows[1..], short - 1);
    }
  }

  /** 128 * 2^k, the rows that fit after k + 1 growths */
  function Room(k: nat): nat {
    if k == 0 then 128 else Room(k - 1) + Room(k - 1)
  }

  /** In closed form: if the first g growths succeed and the next one fails, the rows that fit into the
      buffer after the g-th are collected, or all if there are fewer. */
  lemma {:induction false} CollectedIs(n: nat, grows: seq<bool>, g: nat)
    requires g <= |grows| && (forall k :: 0 <= k < g ==> grows[k]) && (g < |grows| ==> !grows[g])
    ensures var room := if g == 0 then 0 else Room(g - 1);
            Collected(n, 0, grows) == if n < room then n else room
  {
    if g > 0 {
      CollectedFrom(n, 0, grows[1..], g - 1);
    }
  }

  lemma {:induction false} CollectedFrom(n: nat, k: nat, grows: seq<bool>, g: nat)
    requires g <= |grows| && (forall j :: 0 <= j < g ==> grows[j]) && (g < |grows| ==> !grows[g])
    ensures Collected(n, Room(k), grows) == if n < Room(k + g) then n else Room(k + g)
    decreases g
  {
    RoomGrows(k, k + g);
    if g > 0 {
      CollectedFrom(n, k + 1, grows[1..], g - 1);
    }
  }

  lemma {:induction false} RoomGrows(j: nat, k: nat)
    requires j <= k
    ensures 128 <= Room(j) <= Room(k)
  {
    if j < k {
      RoomGrows(j, k - 1);
    } else if k > 0 {
      RoomGrows(j - 1, k - 1);
    }
  }

  /** What a caller is promised: top holds the first max of rows in descending order. */
  ghost predicate IsTop(top: seq<Row>, rows: seq<Row>, max: nat, order: Order) {
    && |top| == (if |rows| < max then |rows| else max)
    && Descending(top, order)
    && multiset(top) <= multiset(rows)
    && forall r, i :: r in multiset(rows) - multiset(top) && 0 <= i < |top| ==> Key(r, order) <= Key(top[i], order)
  }

  /** What the order means: by memory, the working sets fall and no omitted one is larger; by CPU, the
      seconds do. */
  lemma TopByReading(top: seq<Row>, rows: seq<Row>, max: nat)
    ensures IsTop(top, rows, max, ByMemory) ==>
              && (forall i, j :: 0 <= i < j < |top| ==> top[i].workingSetMb >= top[j].workingSetMb)
              && (forall r, i :: r in multiset(rows) - multiset(top) && 0 <= i < |top| ==>
                    r.workingSetMb <= top[i].workingSetMb)
    ensures IsTop(top, rows, max, ByCpu) ==>
              && (forall i, j :: 0 <= i < j < |top| ==> top[i].cpuSeconds >= top[j].cpuSeconds)
              && (forall r, i :: r in multiset(rows) - multiset(top) && 0 <= i < |top| ==>
                    r.cpuSeconds <= top[i].cpuSeconds)
  {
  }

  /** The promise leaves no choice but between rows with equal keys: two answers to the same question
      show the same keys in the same places. */
  lemma TopKeysAreDetermined(s: seq<Row>, t: seq<Row>, rows: seq<Row>, max: nat, order: Order, i: nat)
    requires IsTop(s, rows, max, order) && IsTop(t, rows, max, order) && i < |s|
    ensures |t| == |s| && Key(s[i], order) == Key(t[i], order)
  {
    NotAbove(s, t, rows, max, order, i);
    NotAbove(t, s, rows, max, order, i);
  }

  lemma NotAbove(s: seq<Row>, t: seq<Row>, rows: seq<Row>, max: nat, order: Order, i: nat)
    requires IsTop(s, rows, max, order) && IsTop(t, rows, max, order) && i < |s|
    ensures Key(s[i], order) <= Key(t[i], order)
  {
    if Key(s[i], order) > Key(t[i], order) {
      var _ := Omitted(s, t, rows, order, i);
    }
  }

  /** If s[i] is larger than t[i], one of the first i + 1 rows of s is missing from t. */
  lemma Omitted(s: seq<Row>, t: seq<Row>, rows: seq<Row>, order: Order, i: nat) returns (r: Row)
    requires Descending(s, order) && Descending(t, order) && multiset(s) <= multiset(rows)
    requires i < |s| && i < |t| && Key(s[i], order) > Key(t[i], order)
    ensures r in multiset(rows) - multiset(t) && Key(r, order) > Key(t[i], order)
  {
    r := Missing(s[..i + 1], t[..i]);
    Split(s, i + 1, r);
    Split(t, i, r);
    KeysAround(s, i + 1, r, order);
    KeysAround(t, i, r, order);
  }

  lemma Split(s: seq<Row>, i: nat, r: Row)
    requires i <= |s|
    ensures multiset(s)[r] == multiset(s[..i])[r] + multiset(s[i..])[r]
  {
    assert s == s[..i] + s[i..];
  }

  lemma KeysAround(s: seq<Row>, i: nat, r: Row, order: Order)
    requires Descending(s, order) && i <= |s|
    ensures multiset(s[..i])[r] > 0 ==> i > 0 && Key(r, order) >= Key(s[i - 1], order)
    ensures multiset(s[i..])[r] > 0 ==> i < |s| && Key(r, order) <= Key(s[i], order)
  {
    assert multiset(s[..i])[r] > 0 ==> r in s[..i];
    assert multiset(s[i..])[r] > 0 ==> r in s[i..];
  }

  lemma Missing(a: seq<Row>, b: seq<Row>) returns (r: Row)
    requires |a| > |b|
    ensures multiset(a)[r] > multiset(b)[r]
  {
    Within(multiset(a), multiset(b));
    assert |multiset(a)| > |multiset(b)|;
    r :| multiset(a)[r] > multiset(b)[r];
  }

  lemma Within(a: multiset<Row>, b: multiset<Row>)
    ensures a <= b ==> |a| <= |b|
  {
    assert a <= b ==> b == a + (b - a);
  }

  // ---- Sorting -----------------------------------------------------------------------

  function Insert(r: Row, s: seq<Row>, order: Order): seq<Row> {
    if s == [] || Key(r, order) >= Key(s[0], order) then [r] + s
    else [s[0]] + Insert(r, s[1..], order)
  }

  lemma {:induction false} InsertKeeps(r: Row, s: seq<Row>, order: Order)
    requires Descending(s, order)
    ensures multiset(Insert(r, s, order)) == multiset(s) + multiset{r}
    ensures Descending(Insert(r, s, order), order)
  {
    hide Descending;
    if s != [] {
      FirstIsLargest(s, order);
    }
    if s != [] && Key(r, order) < Key(s[0], order) {
      InsertKeeps(r, s[1..], order);
      assert s == [s[0]] + s[1..];
      PutFirst(s[0], Insert(r, s[1..], order), s[1..] + [r], order);
    } else {
      PutFirst(r, s, s, order);
    }
  }

  lemma FirstIsLargest(s: seq<Row>, order: Order)
    requires Descending(s, order) && s != []
    ensures Descending(s[1..], order)
    ensures forall i :: 0 <= i < |s| ==> Key(s[0], order) >= Key(s[i], order)
  {
  }

  /** A largest row in front of descending rows */
  lemma PutFirst(r: Row, s: seq<Row>, same: seq<Row>, order: Order)
    requires Descending(s, order) && multiset(s) == multiset(same)
    requires forall i :: 0 <= i < |same| ==> Key(r, order) >= Key(same[i], order)
    ensures Descending([r] + s, order)
  {
    forall i | 0 <= i < |s| ensures Key(r, order) >= Key(s[i], order) {
      assert s[i] in multiset(same);
    }
  }

  function Sorted(s: seq<Row>, order: Order): seq<Row> {
    if s == [] then [] else Insert(s[|s| - 1], Sorted(s[..|s| - 1], order), order)
  }

  lemma {:induction false} SortedIsSorted(s: seq<Row>, order: Order)
    ensures Descending(Sorted(s, order), order)
    ensures multiset(Sorted(s, order)) == multiset(s) && |Sorted(s, order)| == |s|
  {
    if s != [] {
      SortedIsSorted(s[..|s| - 1], order);
      InsertKeeps(s[|s| - 1], Sorted(s[..|s| - 1], order), order);
      assert s == s[..|s| - 1] + [s[|s| - 1]];
    }
    assert |multiset(Sorted(s, order))| == |multiset(s)|;
  }

  /** qsort with cmp_by_memory or cmp_by_cpu. Only what the C library promises is stated: which of
      two rows with equal keys comes first is open. */
  method Qsort(all: array<Row>, count: nat, order: Order)
    requires count <= all.Length
    modifies all
    ensures Descending(all[..count], order) && multiset(all[..count]) == multiset(old(all[..count]))
  {
    var t := Sorted(all[..count], order);
    SortedIsSorted(all[..count], order);
    forall k | 0 <= k < count {
      all[k] := t[k];
    }
    assert all[..count] == t;
  }

  lemma PrefixIsTop(top: seq<Row>, rest: seq<Row>, rows: seq<Row>, max: nat, order: Order)
    requires Descending(top + rest, order) && multiset(top + rest) == multiset(rows)
    requires |top| <= max && (rest != [] ==> |top| == max)
    ensures IsTop(top, rows, max, order)
  {
    assert multiset(top + rest) == multiset(top) + multiset(rest);
    assert |multiset(top + rest)| == |multiset(rows)|;
    forall i, j | 0 <= i < j < |top| ensures Key(top[i], order) >= Key(top[j], order) {
      assert (top + rest)[i] == top[i] && (top + rest)[j] == top[j];
    }
    forall r, i | r in multiset(rows) - multiset(top) && 0 <= i < |top|
      ensures Key(r, order) <= Key(top[i], order)
    {
      assert multiset(rows) - multiset(top) == multiset(rest);
      var j :| 0 <= j < |rest| && rest[j] == r;
      assert (top + rest)[i] == top[i] && (top + rest)[|top| + j] == r;
    }
  }

  // ---- The operation -------------------------------------------------------------------

  /** realloc of the row buffer */
  method Grow(all: array<Row>, count: nat, capacity: nat) returns (grown: array<Row>)
    requires count <= all.Length <= capacity
    ensures fresh(grown) && grown.Length == capacity
    ensures grown[..count] == all[..count]
  {
    grown := new Row[capacity];
    forall k | 0 <= k < count {
      grown[k] := all[k];
    }
  }

  /** The do loop: fills a buffer that doubles until a growth fails. */
  method Collect(ps: seq<Process>, grows: seq<bool>) returns (all: array<Row>, count: nat)
    ensures fresh(all) && count <= all.Length
    ensures count == Collected(|ps|, 0, grows)
    ensures all[..count] == Rows(ps)[..count]
  {
    all := new Row[0];
    count := 0;
    var attempts := 0;
    while count < |ps|
      invariant fresh(all) && count <= |ps| && count <= all.Length
      invariant attempts <= |grows|
      invariant Collected(|ps|, 0, grows) == Collected(|ps|, all.Length, grows[attempts..])
      invariant all[..count] == Rows(ps)[..count]
    {
      var row := RowOf(ps[count]);
      if count == all.Length {
        if attempts == |grows| || !grows[attempts] {
          return;
        }
        all := Grow(all, count, if count == 0 then 128 else count * 2);
        attempts := attempts + 1;
      }
      all[count] := row;
      count := count + 1;
    }
  }

  /** win_get_top_processes; snapshot is None when it cannot be taken. */
  method GetTopProcesses(procs: array?<Row>, maxProcs: int, order: Order,
                         snapshot: Option<seq<Process>>, grows: seq<bool>)
    returns (n: int)
    requires procs != null ==> maxProcs <= procs.Length
    modifies procs
    ensures procs == null || maxProcs <= 0 || snapshot.None? ==>
              n == 0 && (procs != null ==> procs[..] == old(procs[..]))
    ensures procs != null && maxProcs > 0 && snapshot.Some? ==>
              var rows := Rows(snapshot.value)[..Collected(|snapshot.value|, 0, grows)];
              && 0 <= n <= maxProcs && n <= procs.Length
              && IsTop(procs[..n], rows, maxProcs, order)
              && procs[n..] == old(procs[n..])
  {
    if procs == null || maxProcs <= 0 || snapshot.None? {
      return 0;
    }
    hide IsTop, Descending, Collected;
    var all, count := Collect(snapshot.value, grows);
    ghost var rows := all[..count];
    if count == 0 {
      NothingIsTop(maxProcs, order);
      assert procs[..0] == [] && rows == [];
      return 0;
    }
    Qsort(all, count, order);
    n := if count < maxProcs then count else maxProcs;
    CopyRows(procs, all, n);
    assert all[..count] == all[..n] + all[n..count];
    PrefixIsTop(all[..n], all[n..count], rows, maxProcs, order);
  }

  lemma NothingIsTop(max: nat, order: Order)
    ensures IsTop([], [], max, order)
  {
  }

  /** memcpy of n rows */
  method CopyRows(to: array<Row>, from: array<Row>, n: nat)
    requires n <= to.Length && n <= from.Length && to != from
    modifies to
    ensures to[..n] == from[..n] && to[n..] == old(to[n..])
  {
    forall k | 0 <= k < n {
      to[k] := from[k];
    }
  }
}

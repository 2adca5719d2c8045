/**
 `MyUtility::generateUniqueId`: 64-bit ids from a millisecond clock, a data
 centre, a machine and a per-millisecond sequence. The clock is the sequence of
 readings that the calls get to see.
 */
module IdGenerator {
  import opened Bits

  // ------------------------------------------------------------------ packing

  /** `timestamp - epoch` on 64 unsigned bits, which wraps for a clock before 2021. */
  function Offset(timestamp: nat): nat {
    (timestamp - 1609459200000) % 0x1_0000_0000_0000_0000
  }

  /** `x << 22` on 64 bits: the high bits fall off. */
  function Shift22(x: nat): nat {
    x * 4194304 % 0x1_0000_0000_0000_0000
  }

  /** The final expression. */
  function Pack(offset: nat, dataCenter: nat, machine: nat, sequence: nat): nat {
    Or(Or(Or(Shift22(offset), dataCenter * 131072), machine * 4096), sequence)
  }

  function OffsetOf(id: nat): nat { id / 4194304 }
  function DataCenterOf(id: nat): nat { id / 131072 % 32 }
  function MachineOf(id: nat): nat { id / 4096 % 32 }
  function SequenceOf(id: nat): nat { id % 4096 }

  predicate InFields(dataCenter: nat, machine: nat, sequence: nat) {
    dataCenter <= 31 && machine <= 31 && sequence <= 4095
  }

  /** In the 2^42 milliseconds from the epoch on. */
  predicate Representable(timestamp: nat) {
    1609459200000 <= timestamp < 1609459200000 + 0x400_0000_0000
  }

  lemma ShiftKeepsLow(x: nat)
    ensures Shift22(x) == x % 0x400_0000_0000 * 4194304
  {
  }

  /** The or-ed fields do not overlap: the id is their sum. */
  lemma PackIsSum(offset: nat, dataCenter: nat, machine: nat, sequence: nat)
    requires InFields(dataCenter, machine, sequence)
    ensures Pack(offset, dataCenter, machine, sequence)
      == offset % 0x400_0000_0000 * 4194304 + dataCenter * 131072 + machine * 4096 + sequence
  {
    var o := offset % 0x400_0000_0000;
    Widths();
    ShiftKeepsLow(offset);
    OrIsSum(22, o, dataCenter * 131072);
    OrIsSum(17, o * 32 + dataCenter, machine * 4096);
    OrIsSum(12, (o * 32 + dataCenter) * 32 + machine, sequence);
  }

  /** A sum of fields decodes field by field. */
  lemma SumDecodes(o: nat, dataCenter: nat, machine: nat, sequence: nat)
    requires InFields(dataCenter, machine, sequence)
    ensures var id := o * 4194304 + dataCenter * 131072 + machine * 4096 + sequence;
      && OffsetOf(id) == o && DataCenterOf(id) == dataCenter && MachineOf(id) == machine && SequenceOf(id) == sequence
  {
    var id := o * 4194304 + dataCenter * 131072 + machine * 4096 + sequence;
    assert id / 4096 == o * 1024 + dataCenter * 32 + machine;
    assert id / 131072 == o * 32 + dataCenter;
    assert id / 4194304 == o;
  }

  lemma OffsetInRange(timestamp: nat)
    requires Representable(timestamp)
    ensures Offset(timestamp) == timestamp - 1609459200000 < 0x400_0000_0000
  {
  }

  lemma LowBits(x: nat)
    ensures x % 0x400_0000_0000 == x <==> x < 0x400_0000_0000
  {
  }

  /**
   Data centre, machine and sequence always decode from the id; the timestamp
   does exactly while its 64-bit offset from the epoch is below 2^42.
   */
  lemma PackingRoundTrips(timestamp: nat, dataCenter: nat, machine: nat, sequence: nat)
    requires InFields(dataCenter, machine, sequence)
    ensures var id := Pack(Offset(timestamp), dataCenter, machine, sequence);
      && DataCenterOf(id) == dataCenter && MachineOf(id) == machine && SequenceOf(id) == sequence
      && (OffsetOf(id) == Offset(timestamp) <==> Offset(timestamp) < 0x400_0000_0000)
      && (Representable(timestamp) ==> OffsetOf(id) + 1609459200000 == timestamp)
  {
    var o := Offset(timestamp);
    PackIsSum(o, dataCenter, machine, sequence);
    SumDecodes(o % 0x400_0000_0000, dataCenter, machine, sequence);
    LowBits(o);
    if Representable(timestamp) {
      OffsetInRange(timestamp);
    }
  }

  // --------------------------------------------------------------- generation

  /** The two static members. */
  datatype Generator = Generator(sequence: nat, lastTimestamp: nat)

  /** What an id is made of. */
  datatype Stamp = Stamp(timestamp: nat, dataCenter: nat, machine: nat, sequence: nat)
  {
    function Id(): nat { Pack(Offset(timestamp), dataCenter, machine, sequence) }

    /** From the same data centre and machine. */
    predicate SameSource(other: Stamp) { dataCenter == other.dataCenter && machine == other.machine }

    /** Strictly later in time, or in sequence within a millisecond. */
    predicate Before(other: Stamp) {
      timestamp < other.timestamp || (timestamp == other.timestamp && sequence < other.sequence)
    }
  }

  /** `used` readings were taken; `Waiting` means the readings ran out in the wait loop. */
  datatype Outcome =
    | InvalidArgument
    | Waiting(g: Generator)
    | Issued(stamp: Stamp, g: Generator, used: nat)

  /** The wait loop: the position of the first reading after `last`, from `i` on. */
  function FirstAfter(clock: seq<nat>, last: nat, i: nat): (k: nat)
    requires i <= |clock|
    ensures i <= k <= |clock|
    ensures k < |clock| ==> clock[k] > last
    ensures forall j :: i <= j < k ==> clock[j] <= last
    decreases |clock| - i
  {
    if i == |clock| || clock[i] > last then i else FirstAfter(clock, last, i + 1)
  }

  function Generate(g: Generator, dataCenter: nat, machine: nat, clock: seq<nat>): Outcome {
    if dataCenter > 31 || machine > 31 then InvalidArgument
    else if clock == [] then Waiting(g)
    else if clock[0] != g.lastTimestamp then
      Issued(Stamp(clock[0], dataCenter, machine, 0), Generator(0, clock[0]), 1)
    else
      var sequence := And(g.sequence + 1, 4095);
      if sequence != 0 then
        Issued(Stamp(clock[0], dataCenter, machine, sequence), Generator(sequence, clock[0]), 1)
      else
        var k := FirstAfter(clock, g.lastTimestamp, 1);
        if k == |clock| then Waiting(Generator(0, g.lastTimestamp))
        else Issued(Stamp(clock[k], dataCenter, machine, 0), Generator(0, clock[k]), k + 1)
  }

  /** The stamps of a sequence of calls, each given its (data centre, machine). */
  function Stamps(g: Generator, calls: seq<(nat, nat)>, clock: seq<nat>): seq<Stamp>
    decreases calls
  {
    if calls == [] then []
    else
      match Generate(g, calls[0].0, calls[0].1, clock)
      case InvalidArgument => Stamps(g, calls[1..], clock)
      case Waiting(_) => []
      case Issued(stamp, g', used) =>
        [stamp] + (if used <= |clock| then Stamps(g', calls[1..], clock[used..]) else [])
  }

  ghost predicate NonDecreasing(clock: seq<nat>) {
    forall i, j :: 0 <= i < j < |clock| ==> clock[i] <= clock[j]
  }

  /** The clock does not run back behind the generator. */
  ghost predicate Ready(g: Generator, clock: seq<nat>) {
    NonDecreasing(clock) && (clock != [] ==> g.lastTimestamp <= clock[0]) && g.sequence <= 4095
  }

  /** The generator's state, as the stamp it last issued. */
  function Latest(g: Generator): Stamp {
    Stamp(g.lastTimestamp, 0, 0, g.sequence)
  }

  lemma NextSequence(q: nat)
    requires q <= 4095
    ensures And(q + 1, 4095) == if q == 4095 then 0 else q + 1
  {
    Mask12(q + 1);
    SmallRemainder(q);
  }

  lemma SmallRemainder(q: nat)
    requires q <= 4095
    ensures (q + 1) % 4096 == if q == 4095 then 0 else q + 1
  {
  }

  /** A call advances (timestamp, sequence) lexicographically, through wrap and wait. */
  lemma CallAdvances(g: Generator, dataCenter: nat, machine: nat, clock: seq<nat>)
    requires Ready(g, clock)
    requires Generate(g, dataCenter, machine, clock).Issued?
    ensures var r := Generate(g, dataCenter, machine, clock);
      && r.used <= |clock| && Ready(r.g, clock[r.used..])
      && Latest(g).Before(r.stamp)
      && r.stamp.timestamp == r.g.lastTimestamp && r.stamp.sequence == r.g.sequence
      && InFields(r.stamp.dataCenter, r.stamp.machine, r.stamp.sequence)
      && r.stamp.dataCenter == dataCenter && r.stamp.machine == machine && r.stamp.timestamp == clock[r.used - 1]
  {
    NextSequence(g.sequence);
  }

  /** A call is refused exactly for fields that do not fit, and waits only while the clock stands still. */
  lemma RefusesAndWaitsOnly(g: Generator, dataCenter: nat, machine: nat, clock: seq<nat>)
    requires Ready(g, clock)
    ensures var r := Generate(g, dataCenter, machine, clock);
      && (r.InvalidArgument? <==> dataCenter > 31 || machine > 31)
      && (r.Waiting? ==> forall i :: 0 <= i < |clock| ==> clock[i] == g.lastTimestamp)
      && (r.Waiting? && clock != [] ==> g.sequence == 4095 && r.g == Generator(0, g.lastTimestamp))
      && (r.Waiting? && clock == [] ==> r.g == g)
  {
    NextSequence(g.sequence);
  }

  /** The wait ends with the first later reading, if the clock ever advances. */
  lemma WaitEnds(g: Generator, dataCenter: nat, machine: nat, clock: seq<nat>, i: nat)
    requires dataCenter <= 31 && machine <= 31 && i < |clock| && clock[i] > g.lastTimestamp
    ensures Generate(g, dataCenter, machine, clock).Issued?
    ensures Generate(g, dataCenter, machine, clock).used <= i + 1
  {
  }

  lemma {:induction false} StampsAdvance(g: Generator, calls: seq<(nat, nat)>, clock: seq<nat>, i: nat)
    requires Ready(g, clock) && i < |Stamps(g, calls, clock)|
    ensures var all := Stamps(g, calls, clock);
      && Latest(g).Before(all[i]) && InFields(all[i].dataCenter, all[i].machine, all[i].sequence)
      && forall j :: 0 <= j < i ==> all[j].Before(all[i])
    decreases calls
  {
    match Generate(g, calls[0].0, calls[0].1, clock)
    case InvalidArgument => StampsAdvance(g, calls[1..], clock, i);
    case Waiting(_) =>
    case Issued(stamp, g', used) =>
      CallAdvances(g, calls[0].0, calls[0].1, clock);
      if i > 0 {
        StampsAdvance(g', calls[1..], clock[used..], i - 1);
        var all, rest := Stamps(g, calls, clock), Stamps(g', calls[1..], clock[used..]);
        assert all == [stamp] + rest;
        forall j | 0 <= j < i ensures all[j].Before(all[i]) {
          assert j > 0 ==> all[j] == rest[j - 1];
        }
      }
  }

  /** How many of the stamps are of a millisecond. */
  function Within(stamps: seq<Stamp>, timestamp: nat): nat {
    if stamps == [] then 0
    else (if stamps[0].timestamp == timestamp then 1 else 0) + Within(stamps[1..], timestamp)
  }

  /**
   On a non-decreasing clock the sequence is the number of earlier ids of the
   same millisecond, those of earlier calls on the same static state included.
   */
  lemma {:induction false} SequenceCountsTheMillisecond(g: Generator, calls: seq<(nat, nat)>, clock: seq<nat>, i: nat)
    requires Ready(g, clock) && i < |Stamps(g, calls, clock)|
    ensures var all := Stamps(g, calls, clock);
      all[i].sequence == Within(all[..i], all[i].timestamp)
                         + if all[i].timestamp == g.lastTimestamp then g.sequence + 1 else 0
    decreases calls
  {
    NextSequence(g.sequence);
    match Generate(g, calls[0].0, calls[0].1, clock)
    case InvalidArgument => SequenceCountsTheMillisecond(g, calls[1..], clock, i);
    case Waiting(_) =>
    case Issued(stamp, g', used) =>
      CallAdvances(g, calls[0].0, calls[0].1, clock);
      if i > 0 {
        var all, rest := Stamps(g, calls, clock), Stamps(g', calls[1..], clock[used..]);
        SequenceCountsTheMillisecond(g', calls[1..], clock[used..], i - 1);
        StampsAdvance(g', calls[1..], clock[used..], i - 1);
        assert all[..i][1..] == rest[..i - 1];
      }
  }

  /** The offset's low 42 bits are those of the distance from the epoch, before or after it. */
  lemma OffsetLow(timestamp: nat)
    ensures Offset(timestamp) % 0x400_0000_0000 == (timestamp - 1609459200000) % 0x400_0000_0000
  {
  }

  lemma CongruentIff(a: int, b: int)
    ensures a % 0x400_0000_0000 == b % 0x400_0000_0000 <==> (b - a) % 0x400_0000_0000 == 0
  {
    var k := b / 0x400_0000_0000 - a / 0x400_0000_0000;
    assert b - a == 0x400_0000_0000 * k + (b % 0x400_0000_0000 - a % 0x400_0000_0000);
  }

  /** What of the timestamp an id depends on. */
  lemma OffsetsAgreeIff(t: nat, u: nat)
    ensures Offset(t) % 0x400_0000_0000 == Offset(u) % 0x400_0000_0000 <==> (u - t) % 0x400_0000_0000 == 0
  {
    OffsetLow(t);
    OffsetLow(u);
    CongruentIff(t - 1609459200000, u - 1609459200000);
    assert u - 1609459200000 - (t - 1609459200000) == u - t;
  }

  /** Two ids are equal exactly when the fields agree and the timestamps are whole laps of 2^42 ms apart. */
  lemma SameIdIff(a: Stamp, b: Stamp)
    requires InFields(a.dataCenter, a.machine, a.sequence) && InFields(b.dataCenter, b.machine, b.sequence)
    ensures a.Id() == b.Id() <==>
      && a.SameSource(b) && a.sequence == b.sequence
      && (b.timestamp - a.timestamp) % 0x400_0000_0000 == 0
  {
    PackIsSum(Offset(a.timestamp), a.dataCenter, a.machine, a.sequence);
    PackIsSum(Offset(b.timestamp), b.dataCenter, b.machine, b.sequence);
    SumDecodes(Offset(a.timestamp) % 0x400_0000_0000, a.dataCenter, a.machine, a.sequence);
    SumDecodes(Offset(b.timestamp) % 0x400_0000_0000, b.dataCenter, b.machine, b.sequence);
    OffsetsAgreeIff(a.timestamp, b.timestamp);
  }

  lemma BeforeIsSmaller(a: Stamp, b: Stamp)
    requires a.Before(b) && Representable(a.timestamp) && Representable(b.timestamp)
    requires InFields(a.dataCenter, a.machine, a.sequence) && InFields(b.dataCenter, b.machine, b.sequence)
    requires a.SameSource(b)
    ensures a.Id() < b.Id()
  {
    OffsetInRange(a.timestamp);
    OffsetInRange(b.timestamp);
    LowBits(Offset(a.timestamp));
    LowBits(Offset(b.timestamp));
    PackIsSum(Offset(a.timestamp), a.dataCenter, a.machine, a.sequence);
    PackIsSum(Offset(b.timestamp), b.dataCenter, b.machine, b.sequence);
  }

  /**
   On every non-decreasing clock, whatever it starts from: two ids of a sequence
   of calls are equal exactly when data centre, machine and sequence agree and
   the clock ran one or more whole laps of 2^42 ms between them.
   */
  lemma {:induction false} IdsCollideIff(calls: seq<(nat, nat)>, clock: seq<nat>, i: nat, j: nat)
    requires NonDecreasing(clock)
    requires i < j < |Stamps(Generator(0, 0), calls, clock)|
    ensures var a, b := Stamps(Generator(0, 0), calls, clock)[i], Stamps(Generator(0, 0), calls, clock)[j];
      a.Id() == b.Id() <==>
        && a.SameSource(b) && a.sequence == b.sequence
        && a.timestamp < b.timestamp && (b.timestamp - a.timestamp) % 0x400_0000_0000 == 0
  {
    var g := Generator(0, 0);
    StampsAdvance(g, calls, clock, i);
    StampsAdvance(g, calls, clock, j);
    SameIdIff(Stamps(g, calls, clock)[i], Stamps(g, calls, clock)[j]);
  }

  /** The clock does get round: two calls exactly one lap apart give the same id. */
  lemma IdsCollideAfterALap(dataCenter: nat, machine: nat, t: nat)
    requires dataCenter <= 31 && machine <= 31 && t > 0
    ensures var call := (dataCenter, machine);
      var all := Stamps(Generator(0, 0), [call, call], [t, t + 0x400_0000_0000]);
      |all| == 2 && all[0] != all[1] && all[0].Id() == all[1].Id()
  {
    var call, g, late := (dataCenter, machine), Generator(0, t), t + 0x400_0000_0000;
    assert [call, call][1..] == [call] && [t, late][1..] == [late];
    assert Stamps(g, [call], [late]) == [Stamp(late, dataCenter, machine, 0)];
    SameIdIff(Stamp(t, dataCenter, machine, 0), Stamp(late, dataCenter, machine, 0));
  }

  /**
   On a non-decreasing clock whose readings span less than 2^42 ms, the ids of
   any sequence of calls differ, even when data centre and machine vary from
   call to call. Within the 2^42 ms after the epoch they strictly increase
   between calls that agree on both.
   */
  lemma {:induction false} IdsAreUnique(calls: seq<(nat, nat)>, clock: seq<nat>, i: nat, j: nat)
    requires NonDecreasing(clock)
    requires clock != [] ==> clock[|clock| - 1] - clock[0] < 0x400_0000_0000
    requires i < j < |Stamps(Generator(0, 0), calls, clock)|
    ensures var a, b := Stamps(Generator(0, 0), calls, clock)[i], Stamps(Generator(0, 0), calls, clock)[j];
      a.Id() != b.Id()
    ensures var a, b := Stamps(Generator(0, 0), calls, clock)[i], Stamps(Generator(0, 0), calls, clock)[j];
      Representable(a.timestamp) && Representable(b.timestamp) && a.SameSource(b) ==> a.Id() < b.Id()
  {
    var g := Generator(0, 0);
    var a, b := Stamps(g, calls, clock)[i], Stamps(g, calls, clock)[j];
    IdsCollideIff(calls, clock, i, j);
    StampsAdvance(g, calls, clock, i);
    StampsAdvance(g, calls, clock, j);
    StampsAreReadings(g, calls, clock, i);
    StampsAreReadings(g, calls, clock, j);
    assert b.timestamp - a.timestamp < 0x400_0000_0000;
    if Representable(a.timestamp) && Representable(b.timestamp) && a.SameSource(b) {
      BeforeIsSmaller(a, b);
    }
  }

  lemma {:induction false} StampsAreReadings(g: Generator, calls: seq<(nat, nat)>, clock: seq<nat>, i: nat)
    requires i < |Stamps(g, calls, clock)|
    ensures Stamps(g, calls, clock)[i].timestamp in clock
    decreases calls
  {
    match Generate(g, calls[0].0, calls[0].1, clock)
    case InvalidArgument => StampsAreReadings(g, calls[1..], clock, i);
    case Waiting(_) =>
    case Issued(stamp, g', used) =>
      if i > 0 {
        StampsAreReadings(g', calls[1..], clock[used..], i - 1);
      }
  }

  /** Whatever the clock does, every stamp fits its fields. */
  lemma {:induction false} StampsFit(g: Generator, calls: seq<(nat, nat)>, clock: seq<nat>, i: nat)
    requires i < |Stamps(g, calls, clock)|
    ensures var a := Stamps(g, calls, clock)[i]; InFields(a.dataCenter, a.machine, a.sequence)
    decreases calls
  {
    Mask12(g.sequence + 1);
    match Generate(g, calls[0].0, calls[0].1, clock)
    case InvalidArgument => StampsFit(g, calls[1..], clock, i);
    case Waiting(_) =>
    case Issued(stamp, g', used) =>
      if i > 0 {
        StampsFit(g', calls[1..], clock[used..], i - 1);
      }
  }

  /**
   Generators of different (data centre, machine) never collide, on any two
   runs and clocks, forwards or backwards, and from any static state.
   */
  lemma {:induction false} GeneratorsNeverCollide(
      g: Generator, calls: seq<(nat, nat)>, clock: seq<nat>, i: nat,
      g': Generator, calls': seq<(nat, nat)>, clock': seq<nat>, j: nat)
    requires i < |Stamps(g, calls, clock)| && j < |Stamps(g', calls', clock')|
    requires !Stamps(g, calls, clock)[i].SameSource(Stamps(g', calls', clock')[j])
    ensures Stamps(g, calls, clock)[i].Id() != Stamps(g', calls', clock')[j].Id()
  {
    StampsFit(g, calls, clock, i);
    StampsFit(g', calls', clock', j);
    SameIdIff(Stamps(g, calls, clock)[i], Stamps(g', calls', clock')[j]);
  }

  // ------------------------------------------------------------ the static state

  class MyUtility {
    var sequence: nat
    var lastTimestamp: nat

    function State(): Generator
      reads this
    {
      Generator(sequence, lastTimestamp)
    }

    constructor ()
      ensures State() == Generator(0, 0)
    {
      sequence, lastTimestamp := 0, 0;
    }

    method GenerateUniqueId(dataCenter: nat, machine: nat, clock: seq<nat>) returns (r: Outcome)
      modifies this
      ensures r == Generate(old(State()), dataCenter, machine, clock)
      ensures State() == if r.InvalidArgument? then old(State()) else r.g
    {
      if dataCenter > 31 || machine > 31 {
        return InvalidArgument;
      }
      if |clock| == 0 {
        return Waiting(State());
      }
      var i := 0;
      var timestamp := clock[i];
      if timestamp == lastTimestamp {
        sequence := And(sequence + 1, 4095);
        if sequence == 0 {
          while timestamp <= lastTimestamp
            invariant i < |clock| && timestamp == clock[i]
            invariant i == 0 || FirstAfter(clock, lastTimestamp, 1) == FirstAfter(clock, lastTimestamp, i)
            invariant i == 0 ==> timestamp <= lastTimestamp
            decreases |clock| - i
          {
            i := i + 1;
            if i == |clock| {
              return Waiting(State());
            }
            timestamp := clock[i];
          }
        }
      } else {
        sequence := 0;
      }
      lastTimestamp := timestamp;
      return Issued(Stamp(timestamp, dataCenter, machine, sequence), State(), i + 1);
    }
  }
}

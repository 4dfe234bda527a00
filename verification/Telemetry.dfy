/** Debounced telemetry of the local radio (server.py).

  Readings are merged into a pending dictionary and applied together once they have
  been quiet for a while.  The theorems compare that with applying each reading at
  once: when the two agree, and on which field they do not. */
module Telemetry {
  import opened Prelude

  datatype Field = Temperature | Humidity | Pressure | Voltage | Current | BatteryLevel
                 | ChannelUtilization | AirUtilTx | UptimeSeconds

  const MEASURED := {Temperature, Humidity, Pressure, Voltage, Current}
  const COPIED := {ChannelUtilization, AirUtilTx, UptimeSeconds}

  // A reading maps each key to a value or null; `Values` has no nulls.
  type Reading = map<Field, Option<real>>
  type Values = map<Field, real>

  function NonNull(r: Reading): Values {
    map f | f in r && r[f].Some? :: r[f].value
  }

  function Only(v: Values, fields: set<Field>): Values {
    map f | f in v && f in fields :: v[f]
  }

  function Lookup(v: Values, f: Field): Option<real> {
    if f in v then Some(v[f]) else None
  }

  function VoltageToPercent(v: real): real {
    if v >= 4.20 then 100.0 else if v >= 4.15 then 95.0 else if v >= 4.10 then 90.0 else if v >= 4.05 then 85.0
    else if v >= 4.00 then 80.0 else if v >= 3.95 then 70.0 else if v >= 3.90 then 60.0 else if v >= 3.85 then 50.0
    else if v >= 3.80 then 40.0 else if v >= 3.75 then 30.0 else if v >= 3.70 then 20.0 else if v >= 3.60 then 10.0
    else 0.0
  }

  // telemetry_current, sensor_data and base_status; an absent key is null.
  datatype Board = Board(current: Values, power: Option<real>, sensor: Values, sensorPower: Option<real>,
                         batteryPercent: Option<real>, status: Values, realBattery: Option<real>)

  function Power(v: Values): Option<real> {
    if Voltage in v && Current in v then Some(v[Voltage] * v[Current]) else None
  }

  function Percent(v: Values, otherwise: Option<real>): Option<real> {
    if Voltage in v then Some(VoltageToPercent(v[Voltage])) else otherwise
  }

  // The measured part of a board once `update` is laid over the current values.
  function Settled(b: Board, update: Values): Board {
    var current := b.current + Only(update, MEASURED);
    b.(current := current, power := Power(current), sensor := current, sensorPower := Power(current),
       batteryPercent := Percent(current, b.batteryPercent), realBattery := Percent(current, b.realBattery))
  }

  // base_status: copied fields, the voltage, and the battery level, which falls
  // back to the voltage whenever this update brings no usable level of its own.
  function StatusAfter(b: Board, update: Values): Values {
    var current := b.current + Only(update, MEASURED);
    BatteryAfter(b.status + Only(current, {Voltage}) + Only(update, COPIED), current, update)
  }

  // An empty dictionary is refused; one that holds only nulls is not.
  function Applied(b: Board, r: Reading): Board {
    if r == map[] then b else Settled(b, NonNull(r)).(status := StatusAfter(b, NonNull(r)))
  }

  function Flushed(b: Board, pending: Values): Board {
    if pending == map[] then b else Settled(b, pending).(status := StatusAfter(b, pending))
  }

  method MergeMeasured(current: Values, update: Values) returns (merged: Values)
    ensures merged == current + Only(update, MEASURED)
  {
    merged := current;
    if Temperature in update { merged := merged[Temperature := update[Temperature]]; }
    if Humidity in update { merged := merged[Humidity := update[Humidity]]; }
    if Pressure in update { merged := merged[Pressure := update[Pressure]]; }
    if Voltage in update { merged := merged[Voltage := update[Voltage]]; }
    if Current in update { merged := merged[Current := update[Current]]; }
  }

  function BatteryAfter(status: Values, current: Values, update: Values): Values {
    if BatteryLevel in update && update[BatteryLevel] != 101.0 then status[BatteryLevel := update[BatteryLevel]]
    else if Voltage in current then status[BatteryLevel := VoltageToPercent(current[Voltage])]
    else status
  }

  method CopyStatus(status: Values, update: Values) returns (copied: Values)
    ensures copied == status + Only(update, COPIED)
  {
    copied := status;
    if ChannelUtilization in update { copied := copied[ChannelUtilization := update[ChannelUtilization]]; }
    if AirUtilTx in update { copied := copied[AirUtilTx := update[AirUtilTx]]; }
    if UptimeSeconds in update { copied := copied[UptimeSeconds := update[UptimeSeconds]]; }
  }

  class TelemetryBuffer {
    var board: Board
    var pending: Values

    constructor (board: Board)
      ensures this.board == board && pending == map[]
    {
      this.board := board;
      pending := map[];
    }

    method QueueTelemetryValues(values: Reading) returns (queued: bool)
      modifies this`pending
      ensures queued == (values != map[]) && pending == old(pending) + NonNull(values)
    {
      if values == map[] {
        return false;
      }
      var todo := values.Keys;
      while todo != {}
        invariant todo <= values.Keys
        invariant pending == old(pending) + map f | f in NonNull(values) && f !in todo :: NonNull(values)[f]
        decreases |todo|
      {
        var key :| key in todo;
        if values[key].Some? {
          pending := pending[key := values[key].value];
        }
        todo := todo - {key};
      }
      assert NonNull(values) == map f | f in NonNull(values) && f !in todo :: NonNull(values)[f];
      return true;
    }

    method ApplyTelemetryValues(values: Reading) returns (applied: bool)
      modifies this`board
      ensures applied == (values != map[]) && board == Applied(old(board), values)
    {
      if values == map[] {
        return false;
      }
      var update := NonNull(values);
      var current := MergeMeasured(board.current, update);
      var status := board.status;
      if Voltage in current {
        status := status[Voltage := current[Voltage]];
      }
      assert status == board.status + Only(current, {Voltage});
      status := CopyStatus(status, update);
      if BatteryLevel in update && update[BatteryLevel] != 101.0 {
        status := status[BatteryLevel := update[BatteryLevel]];
      } else if Voltage in current {
        status := status[BatteryLevel := VoltageToPercent(current[Voltage])];
      }
      board := Board(current, Power(current), current, Power(current),
                     Percent(current, board.batteryPercent), status, Percent(current, board.realBattery));
      return true;
    }

    // One round of the worker: nothing is applied until the buffer has been quiet.
    method BufferTick(quiet: bool) returns (flushed: bool)
      modifies this
      ensures flushed == (quiet && old(pending) != map[])
      ensures board == if flushed then Flushed(old(board), old(pending)) else old(board)
      ensures pending == if flushed then map[] else old(pending)
    {
      flushed := false;
      if pending != map[] && quiet {
        var values: Reading := map f | f in pending :: Some(pending[f]);
        assert NonNull(values) == pending;
        var f :| f in pending;
        assert f in values;
        pending := map[];
        flushed := ApplyTelemetryValues(values);
      }
    }
  }

  // ------------------------------------------------------------ two ways to apply

  function Immediately(b: Board, readings: seq<Reading>): Board {
    if readings == [] then b else Applied(Immediately(b, readings[..|readings| - 1]), readings[|readings| - 1])
  }

  function Merged(readings: seq<Reading>): Values {
    if readings == [] then map[] else Merged(readings[..|readings| - 1]) + NonNull(readings[|readings| - 1])
  }

  function Debounced(b: Board, batches: seq<seq<Reading>>): Board {
    if batches == [] then b
    else Flushed(Debounced(b, batches[..|batches| - 1]), Merged(batches[|batches| - 1]))
  }

  function Joined(batches: seq<seq<Reading>>): seq<Reading> {
    if batches == [] then [] else Joined(batches[..|batches| - 1]) + batches[|batches| - 1]
  }

  // The measured readings, leaving base_status's own fields aside.
  function Measured(b: Board): Board {
    b.(status := map[])
  }

  // A board on which applying nothing would change nothing.
  predicate Coherent(b: Board) {
    Measured(Settled(b, map[])) == Measured(b)
  }

  lemma SettleTwice(b: Board, v: Values, w: Values)
    ensures Measured(Settled(Settled(b, v), w)) == Measured(Settled(b, v + w))
  {
    OnlyTwice(b.current, v, w);
    var once, twice := Settled(b, v), b.current + Only(v + w, MEASURED);
    assert Settled(once, w).current == twice == Settled(b, v + w).current;
  }

  lemma SettleMeasured(b: Board, c: Board, v: Values)
    requires Measured(b) == Measured(c)
    ensures Measured(Settled(b, v)) == Measured(Settled(c, v))
  {}

  predicate SomeNonEmpty(readings: seq<Reading>) {
    exists i :: 0 <= i < |readings| && readings[i] != map[]
  }

  lemma {:induction false} ImmediateIsMerge(b: Board, readings: seq<Reading>)
    ensures Measured(Immediately(b, readings))
            == Measured(if SomeNonEmpty(readings) then Settled(b, Merged(readings)) else b)
    ensures !SomeNonEmpty(readings) ==> Merged(readings) == map[]
  {
    if readings != [] {
      var front, last := readings[..|readings| - 1], readings[|readings| - 1];
      ImmediateIsMerge(b, front);
      SomeNonEmptyFront(readings);
      var before := Immediately(b, front);
      if last == map[] {
        assert Merged(readings) == Merged(front);
      } else {
        if SomeNonEmpty(front) {
          SettleMeasured(before, Settled(b, Merged(front)), NonNull(last));
          SettleTwice(b, Merged(front), NonNull(last));
        } else {
          SettleMeasured(before, b, NonNull(last));
          assert Merged(readings) == NonNull(last);
        }
      }
    }
  }

  lemma MergeAssociates(u: Values, v: Values, w: Values)
    ensures u + v + w == u + (v + w)
  {}

  lemma {:induction false} MergedConcat(r1: seq<Reading>, r2: seq<Reading>)
    ensures Merged(r1 + r2) == Merged(r1) + Merged(r2)
  {
    if r2 == [] {
      assert r1 + r2 == r1;
    } else {
      var front, last := r2[..|r2| - 1], r2[|r2| - 1];
      assert (r1 + r2)[..|r1 + r2| - 1] == r1 + front && (r1 + r2)[|r1 + r2| - 1] == last;
      MergedConcat(r1, front);
      MergeAssociates(Merged(r1), Merged(front), NonNull(last));
    }
  }

  lemma FlushMerges(b: Board, before: Board, earlier: Values, late: Values)
    requires Measured(before) == Measured(if earlier != map[] then Settled(b, earlier) else b)
    ensures Measured(Flushed(before, late))
            == Measured(if earlier + late != map[] then Settled(b, earlier + late) else b)
  {
    if late == map[] {
      assert earlier + late == earlier;
    } else {
      var f :| f in late;
      assert f in earlier + late;
      if earlier != map[] {
        SettleMeasured(before, Settled(b, earlier), late);
        SettleTwice(b, earlier, late);
      } else {
        SettleMeasured(before, b, late);
        assert earlier + late == late;
      }
    }
  }

  lemma {:induction false} DebouncedIsMerge(b: Board, batches: seq<seq<Reading>>)
    ensures var all := Merged(Joined(batches));
            Measured(Debounced(b, batches)) == Measured(if all != map[] then Settled(b, all) else b)
  {
    if batches != [] {
      var front, last := batches[..|batches| - 1], batches[|batches| - 1];
      DebouncedIsMerge(b, front);
      MergedConcat(Joined(front), last);
      FlushMerges(b, Debounced(b, front), Merged(Joined(front)), Merged(last));
    }
  }

  // However the readings are split into batches, the debounced board shows the same
  // temperature, humidity, pressure, voltage, current, power and battery percent as
  // immediate application, exactly when some value was reported, or the board was
  // coherent to begin with, or every reading was empty.
  lemma DebounceRefinesImmediate(b: Board, batches: seq<seq<Reading>>)
    ensures Measured(Debounced(b, batches)) == Measured(Immediately(b, Joined(batches)))
            <==> Merged(Joined(batches)) != map[] || Coherent(b) || !SomeNonEmpty(Joined(batches))
  {
    DebouncedIsMerge(b, batches);
    ImmediateIsMerge(b, Joined(batches));
  }

  // Any application makes the board coherent, so only a board nothing has been
  // applied to can be an exception.
  lemma AppliedIsCoherent(b: Board, r: Reading)
    requires r != map[]
    ensures Coherent(Applied(b, r))
  {
    SettleTwice(b, NonNull(r), map[]);
    assert NonNull(r) + map[] == NonNull(r);
    SettleMeasured(Applied(b, r), Settled(b, NonNull(r)), map[]);
  }

  // No queued value is lost except to a later one: after the batches, each measured
  // field holds the last non-null value reported for it.
  lemma LastValueWins(b: Board, batches: seq<seq<Reading>>, i: nat, f: Field)
    requires i < |Joined(batches)| && f in MEASURED && f in NonNull(Joined(batches)[i])
    requires forall j :: i < j < |Joined(batches)| ==> f !in NonNull(Joined(batches)[j])
    ensures Lookup(Debounced(b, batches).current, f) == Some(NonNull(Joined(batches)[i])[f])
  {
    DebouncedIsMerge(b, batches);
    MergedLast(Joined(batches), i, f);
    assert Debounced(b, batches).current == Measured(Debounced(b, batches)).current;
  }

  lemma {:induction false} MergedLast(readings: seq<Reading>, i: nat, f: Field)
    requires i < |readings| && f in NonNull(readings[i])
    requires forall j :: i < j < |readings| ==> f !in NonNull(readings[j])
    ensures f in Merged(readings) && Merged(readings)[f] == NonNull(readings[i])[f]
  {
    if i < |readings| - 1 {
      MergedLast(readings[..|readings| - 1], i, f);
    }
  }

  // ---------------------------------------------------------------- battery level

  function Level(b: Board): Option<real> {
    Lookup(b.status, BatteryLevel)
  }

  predicate Usable(v: Values) {
    BatteryLevel in v && v[BatteryLevel] != 101.0
  }

  // The values of each reading, and of each batch, as they are applied.
  function Each(readings: seq<Reading>): seq<Values> {
    seq(|readings|, i requires 0 <= i < |readings| => NonNull(readings[i]))
  }

  function Merges(batches: seq<seq<Reading>>): seq<Values> {
    seq(|batches|, i requires 0 <= i < |batches| => Merged(batches[i]))
  }

  // The level of the last values with a usable one.
  function LastLevel(values: seq<Values>, otherwise: Option<real>): Option<real> {
    if values == [] then otherwise
    else
      var last := values[|values| - 1];
      if Usable(last) then Some(last[BatteryLevel]) else LastLevel(values[..|values| - 1], otherwise)
  }

  // The values of the last reading that is not the empty dictionary.
  function LastReading(readings: seq<Reading>): Values {
    if readings == [] then map[]
    else if readings[|readings| - 1] != map[] then NonNull(readings[|readings| - 1])
    else LastReading(readings[..|readings| - 1])
  }

  // The values of the last batch that is flushed at all.
  function LastMerge(batches: seq<seq<Reading>>): Values {
    if batches == [] then map[]
    else if Merged(batches[|batches| - 1]) != map[] then Merged(batches[|batches| - 1])
    else LastMerge(batches[..|batches| - 1])
  }

  // What one application makes of the level.
  function Shown(update: Values, current: Values, level: Option<real>): Option<real> {
    if Usable(update) then Some(update[BatteryLevel])
    else if Voltage in current then Some(VoltageToPercent(current[Voltage]))
    else level
  }

  lemma StatusShows(b: Board, update: Values)
    ensures Lookup(StatusAfter(b, update), BatteryLevel)
            == Shown(update, b.current + Only(update, MEASURED), Level(b))
  {}

  lemma FlushShows(b: Board, update: Values)
    requires update != map[]
    ensures Flushed(b, update).current == b.current + Only(update, MEASURED)
    ensures Level(Flushed(b, update)) == Shown(update, Flushed(b, update).current, Level(b))
  {
    StatusShows(b, update);
  }

  lemma OneMoreBatch(b: Board, batches: seq<seq<Reading>>)
    requires batches != []
    ensures var n := |batches| - 1;
            Debounced(b, batches) == Flushed(Debounced(b, batches[..n]), Merged(batches[n]))
            && Merged(Joined(batches)) == Merged(Joined(batches[..n])) + Merged(batches[n])
            && Merges(batches) == Merges(batches[..n]) + [Merged(batches[n])]
  {
    MergedConcat(Joined(batches[..|batches| - 1]), batches[|batches| - 1]);
  }

  lemma LastLevelSnoc(values: seq<Values>, last: Values, level: Option<real>)
    ensures LastLevel(values + [last], level)
            == if Usable(last) then Some(last[BatteryLevel]) else LastLevel(values, level)
  {
    assert (values + [last])[..|values|] == values;
  }

  lemma OnlyTwice(c: Values, v: Values, w: Values)
    ensures c + Only(v, MEASURED) + Only(w, MEASURED) == c + Only(v + w, MEASURED)
  {}

  lemma {:induction false} ImmediateLevel(b: Board, readings: seq<Reading>)
    ensures var s := Immediately(b, readings);
            && s.current == b.current + Only(Merged(readings), MEASURED)
            && Level(s) == if SomeNonEmpty(readings) && Voltage in s.current
                           then Shown(LastReading(readings), s.current, None)
                           else LastLevel(Each(readings), Level(b))
  {
    if readings != [] {
      var n := |readings| - 1;
      var front, last := readings[..n], readings[n];
      var before := Immediately(b, front);
      ImmediateLevel(b, front);
      assert Each(readings)[..n] == Each(front);
      SomeNonEmptyFront(readings);
      OnlyTwice(b.current, Merged(front), NonNull(last));
      StatusShows(before, NonNull(last));
    }
  }

  lemma SomeNonEmptyFront(readings: seq<Reading>)
    requires readings != []
    ensures SomeNonEmpty(readings) <==> SomeNonEmpty(readings[..|readings| - 1]) || readings[|readings| - 1] != map[]
  {
    var front := readings[..|readings| - 1];
    if i :| 0 <= i < |front| && front[i] != map[] { assert readings[i] != map[]; }
    if i :| 0 <= i < |readings| && readings[i] != map[] { assert i < |front| ==> front[i] != map[]; }
  }

  lemma {:induction false} DebouncedLevel(b: Board, batches: seq<seq<Reading>>)
    ensures var s := Debounced(b, batches);
            && s.current == b.current + Only(Merged(Joined(batches)), MEASURED)
            && Level(s) == if LastMerge(batches) != map[] && Voltage in s.current
                           then Shown(LastMerge(batches), s.current, None)
                           else LastLevel(Merges(batches), Level(b))
  {
    if batches != [] {
      var n := |batches| - 1;
      var front, last := batches[..n], Merged(batches[n]);
      DebouncedLevel(b, front);
      OneMoreBatch(b, batches);
      LastLevelSnoc(Merges(front), last, Level(b));
      OnlyTwice(b.current, Merged(Joined(front)), last);
      if last == map[] {
        assert Debounced(b, batches) == Debounced(b, front);
        assert Merged(Joined(batches)) == Merged(Joined(front));
      } else {
        FlushShows(Debounced(b, front), last);
      }
    }
  }

  lemma {:induction false} NothingMerged(batches: seq<seq<Reading>>, level: Option<real>)
    ensures LastMerge(batches) == map[] <==> Merged(Joined(batches)) == map[]
    ensures LastMerge(batches) == map[] ==> LastLevel(Merges(batches), level) == level
  {
    if batches != [] {
      var n := |batches| - 1;
      var early, late := Merged(Joined(batches[..n])), Merged(batches[n]);
      NothingMerged(batches[..n], level);
      assert Merges(batches)[..n] == Merges(batches[..n]);
      MergedConcat(Joined(batches[..n]), batches[n]);
      assert early + late == map[] <==> early == map[] && late == map[] by {
        assert forall f :: f in early || f in late ==> f in early + late;
      }
    }
  }

  lemma {:induction false} LastReadingConcat(r1: seq<Reading>, r2: seq<Reading>)
    ensures LastReading(r1 + r2) == if SomeNonEmpty(r2) then LastReading(r2) else LastReading(r1)
  {
    if r2 == [] {
      assert r1 + r2 == r1;
    } else {
      assert (r1 + r2)[..|r1 + r2| - 1] == r1 + r2[..|r2| - 1];
      SomeNonEmptyFront(r2);
      LastReadingConcat(r1, r2[..|r2| - 1]);
    }
  }

  lemma {:induction false} LastReadingInMerge(readings: seq<Reading>)
    requires BatteryLevel in LastReading(readings)
    ensures SomeNonEmpty(readings) && BatteryLevel in Merged(readings)
            && Merged(readings)[BatteryLevel] == LastReading(readings)[BatteryLevel]
  {
    SomeNonEmptyFront(readings);
    if readings[|readings| - 1] == map[] { LastReadingInMerge(readings[..|readings| - 1]); }
  }

  // A level in the last reading is the level of the last batch.
  lemma {:induction false} LastReadingInLastMerge(batches: seq<seq<Reading>>)
    requires BatteryLevel in LastReading(Joined(batches))
    ensures BatteryLevel in LastMerge(batches)
            && LastMerge(batches)[BatteryLevel] == LastReading(Joined(batches))[BatteryLevel]
  {
    var n := |batches| - 1;
    LastReadingConcat(Joined(batches[..n]), batches[n]);
    ImmediateIsMerge(Blank, batches[n]);
    if SomeNonEmpty(batches[n]) {
      LastReadingInMerge(batches[n]);
    } else {
      LastReadingInLastMerge(batches[..n]);
    }
  }

  const Blank := Board(map[], None, map[], None, None, map[], None)

  // The battery level is the exception.  For all readings and all splits into
  // batches it agrees with immediate application exactly when no reading was applied;
  // or the voltage is known and the last reading has a usable level, or the last batch
  // has none or has the one the voltage stands for; or the voltage is unknown and the
  // last usable level of the batches is the last usable level of the readings.
  lemma BatteryLevelAgreesIff(b: Board, batches: seq<seq<Reading>>)
    ensures var readings := Joined(batches);
            var v := Lookup(b.current + Only(Merged(readings), MEASURED), Voltage);
            Level(Debounced(b, batches)) == Level(Immediately(b, readings)) <==>
              if !SomeNonEmpty(readings) then true
              else if v.None? then LastLevel(Merges(batches), Level(b)) == LastLevel(Each(readings), Level(b))
              else if Merged(readings) == map[] then Level(b) == Some(VoltageToPercent(v.value))
              else Usable(LastReading(readings)) || !Usable(LastMerge(batches))
                   || LastMerge(batches)[BatteryLevel] == VoltageToPercent(v.value)
  {
    var readings := Joined(batches);
    ImmediateLevel(b, readings);
    DebouncedLevel(b, batches);
    NothingMerged(batches, Level(b));
    if !SomeNonEmpty(readings) {
      ImmediateIsMerge(b, readings);
      NothingShown(readings, Level(b));
    } else if Usable(LastReading(readings)) {
      LastReadingInLastMerge(batches);
    }
  }

  lemma {:induction false} NothingShown(readings: seq<Reading>, level: Option<real>)
    requires !SomeNonEmpty(readings)
    ensures LastLevel(Each(readings), level) == level
  {
    if readings != [] {
      SomeNonEmptyFront(readings);
      assert Each(readings)[..|readings| - 1] == Each(readings[..|readings| - 1]);
      NothingShown(readings[..|readings| - 1], level);
    }
  }

  // Without a voltage a usable level followed by 101, "charging", in one batch is lost.
  lemma ChargingHidesLevel(b: Board, level: real)
    requires Voltage !in b.current && level != 101.0 && Level(b) != Some(level)
    ensures var batch := [map[BatteryLevel := Some(level)], map[BatteryLevel := Some(101.0)]];
            Level(Immediately(b, batch)) == Some(level) && Level(Debounced(b, [batch])) == Level(b)
  {
    var one, two: Reading := map[BatteryLevel := Some(level)], map[BatteryLevel := Some(101.0)];
    var batch := [one, two];
    TwoReadings(one, two);
    ImmediateLevel(b, batch);
    DebouncedLevel(b, [batch]);
    LastLevelSnoc([NonNull(one)], NonNull(two), Level(b));
    LastLevelSnoc([], NonNull(one), Level(b));
    LastLevelSnoc([], Merged(batch), Level(b));
    assert [] + [NonNull(one)] == [NonNull(one)] && [] + [Merged(batch)] == [Merged(batch)];
  }

  lemma TwoReadings(one: Reading, two: Reading)
    ensures Merged([one, two]) == NonNull(one) + NonNull(two) && Joined([[one, two]]) == [one, two]
    ensures Each([one, two]) == [NonNull(one)] + [NonNull(two)] && Merges([[one, two]]) == [Merged([one, two])]
  {
    var batch := [one, two];
    var batches := [batch];
    assert batch[..1] == [one] && |[one][..0]| == 0 && Merged([one]) == map[] + NonNull(one) == NonNull(one);
    assert |batches[..0]| == 0 && Joined(batches) == [] + batch == batch;
  }

  // --------------------------------------------------------------- what a board shows

  // The charge table: from each voltage on, this many percent.
  const CHARGE: seq<(real, real)> :=
    [(4.20, 100.0), (4.15, 95.0), (4.10, 90.0), (4.05, 85.0), (4.00, 80.0), (3.95, 70.0), (3.90, 60.0), (3.85, 50.0),
     (3.80, 40.0), (3.75, 30.0), (3.70, 20.0), (3.60, 10.0)]

  // The percentage of a voltage is that of the highest table entry it reaches, and 0
  // below the last one; so it never falls as the voltage rises.
  lemma PercentIsTableEntry(v: real, i: nat)
    requires i < |CHARGE| && v >= CHARGE[i].0 && (i > 0 ==> v < CHARGE[i - 1].0)
    ensures VoltageToPercent(v) == CHARGE[i].1
  {}

  lemma PercentBelowTable(v: real)
    requires v < CHARGE[|CHARGE| - 1].0
    ensures VoltageToPercent(v) == 0.0
  {}

  lemma PercentIsMonotone(v: real, w: real)
    requires v <= w
    ensures 0.0 <= VoltageToPercent(v) <= VoltageToPercent(w) <= 100.0
  {}

  // What was reported last for a field, else what the board had.
  function Latest(readings: seq<Reading>, f: Field, otherwise: Option<real>): Option<real> {
    if readings == [] then otherwise
    else
      var last := readings[|readings| - 1];
      if f in last && last[f].Some? then last[f] else Latest(readings[..|readings| - 1], f, otherwise)
  }

  lemma {:induction false} LatestIsMerged(readings: seq<Reading>, f: Field, otherwise: Option<real>)
    ensures Latest(readings, f, otherwise) == if f in Merged(readings) then Some(Merged(readings)[f]) else otherwise
  {
    if readings != [] { LatestIsMerged(readings[..|readings| - 1], f, otherwise); }
  }

  lemma MeasuredLatest(b: Board, batches: seq<seq<Reading>>, f: Field)
    requires f in MEASURED
    ensures Lookup(Debounced(b, batches).current, f) == Latest(Joined(batches), f, Lookup(b.current, f))
  {
    DebouncedLevel(b, batches);
    LatestIsMerged(Joined(batches), f, Lookup(b.current, f));
  }

  function Product(a: Option<real>, b: Option<real>): Option<real> {
    if a.Some? && b.Some? then Some(a.value * b.value) else None
  }

  lemma PowerIsProduct(v: Values)
    ensures Power(v) == Product(Lookup(v, Voltage), Lookup(v, Current))
  {
    if Voltage in v && Current in v {
      var volts, amps := v[Voltage], v[Current];
      assert Lookup(v, Voltage).value == volts && Lookup(v, Current).value == amps;
      assert Power(v).value == volts * amps;
      assert Product(Lookup(v, Voltage), Lookup(v, Current)).value == volts * amps;
    }
  }

  // After batches that reported something, the board shows each measured field as it
  // was last reported, in both places; the power is the last voltage times the last
  // current; and both battery figures are the charge of the last voltage.
  lemma BoardShowsLatest(b: Board, batches: seq<seq<Reading>>, f: Field)
    requires Merged(Joined(batches)) != map[] && f in MEASURED
    ensures var s, readings := Debounced(b, batches), Joined(batches);
            var v := Latest(readings, Voltage, Lookup(b.current, Voltage));
            var i := Latest(readings, Current, Lookup(b.current, Current));
            && Lookup(s.current, f) == Latest(readings, f, Lookup(b.current, f))
            && Lookup(s.sensor, f) == Lookup(s.current, f)
            && s.power == Product(v, i) && s.sensorPower == Product(v, i)
            && s.batteryPercent == (if v.Some? then Some(VoltageToPercent(v.value)) else b.batteryPercent)
            && s.realBattery == (if v.Some? then Some(VoltageToPercent(v.value)) else b.realBattery)
  {
    DebouncedIsMerge(b, batches);
    MeasuredLatest(b, batches, f);
    MeasuredLatest(b, batches, Voltage);
    MeasuredLatest(b, batches, Current);
    var s := Debounced(b, batches);
    assert Measured(s) == Measured(Settled(b, Merged(Joined(batches))));
    assert s.current == Measured(s).current && s.sensor == Measured(s).sensor && s.power == Measured(s).power;
    assert s.sensorPower == Measured(s).sensorPower && s.batteryPercent == Measured(s).batteryPercent;
    assert s.realBattery == Measured(s).realBattery;
    PowerIsProduct(s.current);
  }

  // The copied status fields and the voltage in the status are the last ones too.
  lemma {:induction false} StatusShowsLatest(b: Board, batches: seq<seq<Reading>>, f: Field)
    requires f in COPIED
    ensures Lookup(Debounced(b, batches).status, f) == Latest(Joined(batches), f, Lookup(b.status, f))
  {
    if batches != [] {
      var n := |batches| - 1;
      StatusShowsLatest(b, batches[..n], f);
      OneMoreBatch(b, batches);
      LatestIsMerged(Joined(batches), f, Lookup(b.status, f));
      LatestIsMerged(Joined(batches[..n]), f, Lookup(b.status, f));
      CopiedOnce(Debounced(b, batches[..n]), Merged(batches[n]), f);
    }
  }

  lemma CopiedOnce(b: Board, update: Values, f: Field)
    requires f in COPIED
    ensures Lookup(Flushed(b, update).status, f) == if f in update then Some(update[f]) else Lookup(b.status, f)
  {}

  lemma StatusVoltage(b: Board, update: Values)
    requires update != map[]
    ensures var s := Flushed(b, update);
            Voltage in s.current ==> Lookup(s.status, Voltage) == Lookup(s.current, Voltage)
  {}
}

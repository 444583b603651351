/** A stand-in for the Room-backed `AlarmRepository`: the `alarms` table as a map
    from row id to the alarm read back through `AlarmEntity.toDomain()`, and the
    order in which a table scan visits the rows. */
module Repository {
  import opened Alarms

  /** `list` holds each enabled row of `alarms` exactly once, as stored. */
  predicate IsEnabledListing(alarms: map<int, Alarm>, list: seq<Alarm>) {
    (forall i :: 0 <= i < |list| ==>
      list[i].id in alarms && alarms[list[i].id] == list[i] && list[i].isEnabled) &&
    (forall id :: id in alarms && alarms[id].isEnabled ==>
      exists i :: 0 <= i < |list| && list[i].id == id) &&
    (forall i, j :: 0 <= i < j < |list| ==> list[i].id != list[j].id)
  }

  /** `ids` without `x`, the others in their order. */
  function Remove(ids: seq<int>, x: int): (r: seq<int>)
    ensures forall y :: y in r <==> y in ids && y != x
    ensures NoDuplicates(ids) ==> NoDuplicates(r)
  {
    if ids == [] then []
    else if ids[0] == x then Remove(ids[1..], x)
    else
      assert NoDuplicates(ids) ==> NoDuplicates(ids[1..]) && ids[0] !in ids[1..];
      [ids[0]] + Remove(ids[1..], x)
  }

  class AlarmRepository {
    /** Stored alarms by row id. */
    var alarms: map<int, Alarm>
    /** The row ids in the order a table scan visits them. */
    var scanOrder: seq<int>
    /** The row id SQLite hands out next: one more than any id stored so far. */
    var nextId: int

    ghost predicate Valid()
      reads this
    {
      1 <= nextId && NoDuplicates(scanOrder) &&
      (forall k :: 0 <= k < |scanOrder| ==> scanOrder[k] in alarms) &&
      (forall id :: id in alarms ==> id in scanOrder) &&
      (forall id :: id in alarms ==> alarms[id].id == id && id < nextId)
    }

    constructor ()
      ensures Valid() && alarms == map[]
    {
      alarms := map[];
      scanOrder := [];
      nextId := 1;
    }

    /** `getAlarmById`. */
    function GetAlarmById(id: int): (r: Option<Alarm>)
      reads this
      ensures r.Some? <==> id in alarms
      ensures r.Some? ==> r.value == alarms[id]
    {
      if id in alarms then Some(alarms[id]) else None
    }

    /** `getEnabledAlarms`: `SELECT * FROM alarms WHERE isEnabled = 1`, in scan order. */
    method GetEnabledAlarms() returns (list: seq<Alarm>)
      requires Valid()
      ensures IsEnabledListing(alarms, list)
    {
      list := [];
      for n := 0 to |scanOrder|
        invariant forall i :: 0 <= i < |list| ==>
          list[i].id in scanOrder[..n] && alarms[list[i].id] == list[i] && list[i].isEnabled
        invariant forall k :: 0 <= k < n && alarms[scanOrder[k]].isEnabled ==>
          exists i :: 0 <= i < |list| && list[i].id == scanOrder[k]
        invariant forall i, j :: 0 <= i < j < |list| ==> list[i].id != list[j].id
      {
        var row := alarms[scanOrder[n]];
        if row.isEnabled {
          ghost var before := list;
          list := list + [row];
          assert list[|list| - 1].id == scanOrder[n];
          forall k | 0 <= k < n + 1 && alarms[scanOrder[k]].isEnabled
            ensures exists i :: 0 <= i < |list| && list[i].id == scanOrder[k]
          {
            if k < n {
              var i :| 0 <= i < |before| && before[i].id == scanOrder[k];
              assert list[i].id == scanOrder[k];
            }
          }
          forall i | 0 <= i < |before|
            ensures list[i].id != scanOrder[n]
          {
            assert before[i].id in scanOrder[..n];
          }
        }
      }
      forall id | id in alarms && alarms[id].isEnabled
        ensures exists i :: 0 <= i < |list| && list[i].id == id
      {
        var k :| 0 <= k < |scanOrder| && scanOrder[k] == id;
      }
    }

    /** `saveAlarm`: an insert with REPLACE on conflict; id 0 asks for a new row id. */
    method SaveAlarm(alarm: Alarm) returns (id: int)
      requires Valid()
      modifies this
      ensures Valid()
      ensures alarm.id == 0 ==> id == old(nextId) && id !in old(alarms)
      ensures alarm.id != 0 ==> id == alarm.id
      ensures alarms == old(alarms)[id := alarm.(id := id)]
    {
      id := if alarm.id == 0 then nextId else alarm.id;
      if id !in alarms {
        scanOrder := scanOrder + [id];
      }
      alarms := alarms[id := alarm.(id := id)];
      if id >= nextId {
        nextId := id + 1;
      }
    }

    /** `deleteAlarm`: the row with the alarm's primary key is removed. */
    method DeleteAlarm(alarm: Alarm)
      requires Valid()
      modifies this
      ensures Valid() && nextId == old(nextId)
      ensures alarms == old(alarms) - {alarm.id}
    {
      alarms := alarms - {alarm.id};
      scanOrder := Remove(scanOrder, alarm.id);
      forall k | 0 <= k < |scanOrder|
        ensures scanOrder[k] in alarms
      {
        assert scanOrder[k] in scanOrder;
      }
    }

    /** `setAlarmEnabled`: `UPDATE alarms SET isEnabled = :on WHERE id = :id`. */
    method SetAlarmEnabled(id: int, on: bool)
      requires Valid()
      modifies this
      ensures Valid() && nextId == old(nextId)
      ensures id in old(alarms) ==> alarms == old(alarms)[id := old(alarms)[id].(isEnabled := on)]
      ensures id !in old(alarms) ==> alarms == old(alarms)
    {
      if id in alarms {
        alarms := alarms[id := alarms[id].(isEnabled := on)];
      }
    }

    /** `getAlarmByTime`: `SELECT ... WHERE hour = :h AND minute = :m LIMIT 1`, the
        first row with that time in scan order, if there is one. */
    method GetAlarmByTime(hour: int, minute: int) returns (r: Option<Alarm>)
      requires Valid()
      ensures r.Some? ==> r.value.id in alarms && alarms[r.value.id] == r.value
      ensures r.Some? ==> r.value.hour == hour && r.value.minute == minute
      ensures r.None? ==> forall id :: id in alarms ==> !(alarms[id].hour == hour && alarms[id].minute == minute)
    {
      for n := 0 to |scanOrder|
        invariant forall k :: 0 <= k < n ==>
          !(alarms[scanOrder[k]].hour == hour && alarms[scanOrder[k]].minute == minute)
      {
        var row := alarms[scanOrder[n]];
        if row.hour == hour && row.minute == minute {
          assert row.id == scanOrder[n];
          return Some(row);
        }
      }
      forall id | id in alarms
        ensures !(alarms[id].hour == hour && alarms[id].minute == minute)
      {
        var k :| 0 <= k < |scanOrder| && scanOrder[k] == id;
      }
      return None;
    }
  }
}

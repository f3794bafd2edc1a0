/**
 * The sensor registry behind the sensor tree (sensor_list_widget.py):
 * `sensor_items` maps each registered IP address to the texts of its three
 * child rows (channel, state, GPS), and the tree's top-level rows list the
 * registered addresses in display order. Clicking a row's delete button
 * removes the sensor and emits `sensor_deleted(ip)`; the emissions are
 * recorded in order. Fonts, colours and widgets are not modelled.
 */
module SensorListWidget {
  import opened Wrappers
  import opened Text

  /** The texts of one sensor's child rows. */
  datatype SensorItem = SensorItem(channelText: string, stateText: string, gpsText: string)

  const STATE_DISCONNECTED := "State: Disconnected"
  const STATE_DETECTED := "State: Detected"
  const STATE_NOT_DETECTED := "State: Not detected"
  const GPS_NOT_AVAILABLE := "GPS: Not available"

  /** The state text for a power value: disconnected for `None`, detected when on, not detected when off. */
  function StateText(power: Option<bool>): (t: string)
    ensures t == STATE_DISCONNECTED <==> power.None?
    ensures t == STATE_DETECTED <==> power == Some(true)
    ensures t == STATE_NOT_DETECTED <==> power == Some(false)
  {
    match power
    case None => STATE_DISCONNECTED
    case Some(on) => if on then STATE_DETECTED else STATE_NOT_DETECTED
  }

  /** The displayed state tells the power value apart: equal texts come from equal values only. */
  lemma StateTextInjective(p: Option<bool>, q: Option<bool>)
    ensures StateText(p) == StateText(q) <==> p == q
  {
  }

  /** The GPS text `update_gps` writes, with `fixed6` the `:.6f` formatting of a float. */
  function GpsText(fixed6: real -> string, lng: real, lat: real): string {
    "GPS: " + fixed6(lat) + ",\n     " + fixed6(lng)
  }

  /** Whatever the formatting gives, the GPS text after an update is never the placeholder: it holds a line break. */
  lemma GpsTextReplacesPlaceholder(fixed6: real -> string, lng: real, lat: real)
    ensures '\n' in GpsText(fixed6, lng, lat)
    ensures GpsText(fixed6, lng, lat) != GPS_NOT_AVAILABLE
  {
    var t := GpsText(fixed6, lng, lat);
    var k := |"GPS: " + fixed6(lat)| + 1;
    assert t == ("GPS: " + fixed6(lat)) + ",\n     " + fixed6(lng);
    assert t[k] == '\n';
    assert '\n' !in GPS_NOT_AVAILABLE;
  }

  /** The position of `x` in a list that holds it. */
  function IndexOf(s: seq<string>, x: string): (k: nat)
    requires x in s
    ensures k < |s| && s[k] == x
    ensures forall j :: 0 <= j < k ==> s[j] != x
  {
    if s[0] == x then 0 else 1 + IndexOf(s[1..], x)
  }

  /** Taking out the row at `k` of a list without repeats leaves every other row, in order, and only those. */
  lemma RemoveAt(s: seq<string>, k: nat)
    requires Distinct(s) && k < |s|
    ensures var r := s[..k] + s[k + 1..];
      && Distinct(r) && |r| == |s| - 1
      && (forall x :: x in r <==> x in s && x != s[k])
  {
    var r := s[..k] + s[k + 1..];
    forall x ensures x in r <==> x in s && x != s[k] {
      if x in s && x != s[k] {
        var i :| 0 <= i < |s| && s[i] == x;
        if i < k { assert r[i] == x; } else { assert r[i - 1] == x; }
      }
      if x in r {
        var i :| 0 <= i < |r| && r[i] == x;
        if i < k { assert s[i] == x; } else { assert s[i + 1] == x; }
      }
    }
    forall i, j | 0 <= i < j < |r| ensures r[i] != r[j] {
      var si := if i < k then i else i + 1;
      var sj := if j < k then j else j + 1;
      assert r[i] == s[si] && r[j] == s[sj];
    }
  }

  class SensorListWidget {
    var sensorItems: map<string, SensorItem>
    /** The tree's top-level rows, by IP address, top to bottom. */
    var rows: seq<string>
    /** Every `sensor_deleted` emission, oldest first. */
    var deleted: seq<string>

    /** Each registered sensor has exactly one row, and every row belongs to a registered sensor. */
    ghost predicate Valid()
      reads this
    {
      Distinct(rows) && forall ip :: ip in sensorItems <==> ip in rows
    }

    constructor ()
      ensures Valid() && sensorItems == map[] && rows == [] && deleted == []
    {
      sensorItems, rows, deleted := map[], [], [];
    }

    /** Registers a new sensor with its initial texts; an IP address already present is left as it is. */
    method AddSensor(ip: string, channel: string)
      requires Valid()
      modifies this
      ensures Valid()
      ensures ip in old(sensorItems) ==> sensorItems == old(sensorItems) && rows == old(rows)
      ensures ip !in old(sensorItems) ==>
        && sensorItems == old(sensorItems)[ip := SensorItem("Channel: " + channel, STATE_DISCONNECTED, GPS_NOT_AVAILABLE)]
        && rows == old(rows) + [ip]
      ensures deleted == old(deleted)
    {
      if ip in sensorItems {
        return;
      }
      rows := rows + [ip];
      sensorItems := sensorItems[ip := SensorItem("Channel: " + channel, STATE_DISCONNECTED, GPS_NOT_AVAILABLE)];
    }

    /** Removes a registered sensor and its row, and emits `sensor_deleted(ip)` once; otherwise nothing happens. */
    method OnDeleteClicked(ip: string)
      requires Valid()
      modifies this
      ensures Valid()
      ensures ip !in old(sensorItems) ==> sensorItems == old(sensorItems) && rows == old(rows) && deleted == old(deleted)
      ensures ip in old(sensorItems) ==>
        var k := IndexOf(old(rows), ip);
        && sensorItems == old(sensorItems) - {ip}
        && rows == old(rows)[..k] + old(rows)[k + 1..]
        && deleted == old(deleted) + [ip]
    {
      if ip !in sensorItems {
        return;
      }
      var index := IndexOf(rows, ip);
      RemoveAt(rows, index);
      rows := rows[..index] + rows[index + 1..];
      sensorItems := sensorItems - {ip};
      deleted := deleted + [ip];
    }

    /** Sets the state text of a registered sensor from its power value; nothing else changes. */
    method UpdatePowerStatus(ip: string, powerOn: Option<bool>)
      requires Valid()
      modifies this
      ensures Valid()
      ensures ip !in old(sensorItems) ==> sensorItems == old(sensorItems)
      ensures ip in old(sensorItems) ==>
        sensorItems == old(sensorItems)[ip := old(sensorItems)[ip].(stateText := StateText(powerOn))]
      ensures rows == old(rows) && deleted == old(deleted)
    {
      if ip !in sensorItems {
        return;
      }
      var item := sensorItems[ip];
      sensorItems := sensorItems[ip := item.(stateText := StateText(powerOn))];
    }

    /** Sets the GPS text of a registered sensor; nothing else changes. */
    method UpdateGps(ip: string, lng: real, lat: real, fixed6: real -> string)
      requires Valid()
      modifies this
      ensures Valid()
      ensures ip !in old(sensorItems) ==> sensorItems == old(sensorItems)
      ensures ip in old(sensorItems) ==>
        sensorItems == old(sensorItems)[ip := old(sensorItems)[ip].(gpsText := GpsText(fixed6, lng, lat))]
      ensures rows == old(rows) && deleted == old(deleted)
    {
      if ip !in sensorItems {
        return;
      }
      var item := sensorItems[ip];
      sensorItems := sensorItems[ip := item.(gpsText := GpsText(fixed6, lng, lat))];
    }

    /** Empties the tree and the registry; no deletion is signalled. */
    method Clear()
      modifies this
      ensures Valid()
      ensures sensorItems == map[] && rows == [] && deleted == old(deleted)
    {
      rows := [];
      sensorItems := map[];
    }
  }
}

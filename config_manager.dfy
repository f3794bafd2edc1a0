/**
 * The configuration dialog (config_manager.py): it fills its form from the
 * loaded YAML configuration, lets the user add sensor addresses, and turns
 * the form back into configuration data, which Save merges into the loaded
 * configuration and OK hands back to the caller. Reading and writing the
 * YAML file, the widgets and the message boxes are not modelled; the
 * configuration arrives as a value.
 */
module ConfigManager {
  import opened Wrappers
  import opened Text

  /** What `yaml.safe_load` can give: null, booleans, integers, strings, lists and mappings. */
  datatype Yaml =
    | YNull
    | YBool(b: bool)
    | YInt(i: int)
    | YStr(s: string)
    | YList(items: seq<Yaml>)
    /**
     * A mapping's entries in insertion order. A Python dict has no repeated
     * key (PyYAML keeps the last of duplicate keys), so entries with a
     * repeated key are outside the values this models; `Get` would read the
     * first of them. The mappings the model builds have distinct keys.
     */
    | YMap(entries: seq<(string, Yaml)>)

  /** The exceptions the dialog's code can raise on odd configurations or port text. */
  datatype ConfigError = ValueError | TypeError | AttributeError

  // ---------------------------------------------------------------------------
  // Python dictionaries, as insertion-ordered lists of entries

  function Keys(e: seq<(string, Yaml)>): (ks: seq<string>)
    ensures |ks| == |e|
  {
    if e == [] then [] else [e[0].0] + Keys(e[1..])
  }

  lemma KeysCons(x: (string, Yaml), rest: seq<(string, Yaml)>)
    ensures Keys([x] + rest) == [x.0] + Keys(rest)
  {
    assert ([x] + rest)[1..] == rest;
  }

  lemma Keys2(a: (string, Yaml), b: (string, Yaml))
    ensures Keys([a, b]) == [a.0, b.0]
  {
    KeysCons(b, []);
    KeysCons(a, [b]);
    assert [a, b] == [a] + [b];
  }

  lemma Keys3(a: (string, Yaml), b: (string, Yaml), c: (string, Yaml))
    ensures Keys([a, b, c]) == [a.0, b.0, c.0]
  {
    Keys2(b, c);
    KeysCons(a, [b, c]);
    assert [a, b, c] == [a] + [b, c];
  }

  lemma Keys5(a: (string, Yaml), b: (string, Yaml), c: (string, Yaml), d: (string, Yaml), e: (string, Yaml))
    ensures Keys([a, b, c, d, e]) == [a.0, b.0, c.0, d.0, e.0]
  {
    Keys3(c, d, e);
    KeysCons(b, [c, d, e]);
    assert [b, c, d, e] == [b] + [c, d, e];
    KeysCons(a, [b, c, d, e]);
    assert [a, b, c, d, e] == [a] + [b, c, d, e];
  }

  /** `d.get(k)`: the value stored under `k`, or `None` for a missing key. */
  function Get(e: seq<(string, Yaml)>, k: string): Option<Yaml> {
    if e == [] then None
    else if e[0].0 == k then Some(e[0].1)
    else Get(e[1..], k)
  }

  /** A key is missing exactly when it is not among the keys. */
  lemma {:induction false} GetMissing(e: seq<(string, Yaml)>, k: string)
    ensures Get(e, k).None? <==> k !in Keys(e)
  {
    if e != [] {
      assert Keys(e) == [e[0].0] + Keys(e[1..]);
      GetMissing(e[1..], k);
    }
  }

  /** `d[k] = v`: an existing key keeps its place, a new key goes last. */
  function Put(e: seq<(string, Yaml)>, k: string, v: Yaml): (r: seq<(string, Yaml)>)
    ensures Keys(r) == if k in Keys(e) then Keys(e) else Keys(e) + [k]
  {
    if e == [] then [(k, v)]
    else if e[0].0 == k then
      assert Keys(e) == [k] + Keys(e[1..]);
      [(k, v)] + e[1..]
    else
      assert Keys(e) == [e[0].0] + Keys(e[1..]);
      [e[0]] + Put(e[1..], k, v)
  }

  /** After `d[k] = v`, `k` holds `v` and every other key holds what it held. */
  lemma {:induction false} GetPut(e: seq<(string, Yaml)>, k: string, v: Yaml, j: string)
    ensures Get(Put(e, k, v), j) == if j == k then Some(v) else Get(e, j)
  {
    if e != [] && e[0].0 != k {
      GetPut(e[1..], k, v, j);
    }
  }

  /** Assignment keeps every key in place and adds at most the assigned one. */
  lemma PutKeys(e: seq<(string, Yaml)>, k: string, v: Yaml)
    ensures Keys(e) <= Keys(Put(e, k, v))
    ensures forall x :: x in Keys(Put(e, k, v)) <==> x in Keys(e) || x == k
  {
  }

  /** Assignment never introduces a second entry for a key. */
  lemma PutDistinct(e: seq<(string, Yaml)>, k: string, v: Yaml)
    requires Distinct(Keys(e))
    ensures Distinct(Keys(Put(e, k, v)))
  {
    var ks := Keys(e);
    if k !in ks {
      var ks2 := ks + [k];
      forall i, j | 0 <= i < j < |ks2| ensures ks2[i] != ks2[j] {
        if j == |ks| { assert ks2[i] == ks[i]; }
      }
    }
  }

  /** Python's truth value: `None`, `False`, `0` and empty strings, lists and dictionaries are false. */
  predicate Truthy(v: Yaml) {
    match v
    case YNull => false
    case YBool(b) => b
    case YInt(i) => i != 0
    case YStr(s) => s != ""
    case YList(items) => items != []
    case YMap(e) => e != []
  }

  /** `str(v)`, with `repr` standing for Python's text of a list or a dictionary. */
  function PyStr(v: Yaml, repr: Yaml -> string): string {
    match v
    case YNull => "None"
    case YBool(b) => if b then "True" else "False"
    case YInt(i) => IntText(i)
    case YStr(s) => s
    case _ => repr(v)
  }

  // ---------------------------------------------------------------------------
  // The form

  /** The dialog's line edits and the rows of its sensor list. */
  datatype Form = Form(
    naverId: string, naverPw: string,
    ntripAddr: string, ntripPort: string, ntripId: string, ntripPw: string, ntripMount: string,
    listIp: string, rows: seq<string>)

  /** The form as `setup_ui` leaves it: every field empty, no rows. */
  const EmptyForm := Form("", "", "", "", "", "", "", "", [])

  /** The `add_sensor` action: the stripped input is appended and the input cleared, unless it is blank. */
  function WithSensor(f: Form): (g: Form)
    ensures Strip(f.listIp) == "" ==> g == f
    ensures Strip(f.listIp) != "" ==> g.listIp == "" && g.rows == f.rows + [Strip(f.listIp)]
    ensures g.(listIp := f.listIp, rows := f.rows) == f
  {
    var ip := Strip(f.listIp);
    if ip == "" then f else f.(rows := f.rows + [ip], listIp := "")
  }

  /** Non-empty text with no whitespace at either end. */
  predicate Trimmed(s: string) {
    s != "" && !IsSpace(s[0]) && !IsSpace(s[|s| - 1])
  }

  /** Whitespace-only input adds nothing; anything else adds a row with no whitespace at either end. */
  lemma WithSensorStrips(f: Form)
    ensures (forall k :: 0 <= k < |f.listIp| ==> IsSpace(f.listIp[k])) <==> WithSensor(f) == f
    ensures WithSensor(f) != f ==> |WithSensor(f).rows| == |f.rows| + 1 && Trimmed(WithSensor(f).rows[|f.rows|])
  {
    var ip := Strip(f.listIp);
    StripEmptyIff(f.listIp);
    StripEnds(f.listIp);
    var g := WithSensor(f);
    if ip != "" {
      assert g.rows == f.rows + [ip];
      assert g.rows[|f.rows|] == ip;
      assert Trimmed(ip);
    }
  }

  // ---------------------------------------------------------------------------
  // get_current_data

  /** The channel label of the row at index `i`: `ch1` for the first row. */
  function Channel(i: nat): string {
    "ch" + IntText(i + 1)
  }

  /** Each row's text with `strip()` applied. */
  function StrippedRows(rows: seq<string>): (r: seq<string>)
    ensures |r| == |rows| && forall i :: 0 <= i < |rows| ==> r[i] == Strip(rows[i])
  {
    seq(|rows|, i requires 0 <= i < |rows| => Strip(rows[i]))
  }

  /** Each address mapped to the channel of its position, assigned in order, so that a later position overrides. */
  function ChannelMap(ips: seq<string>): seq<(string, Yaml)>
    decreases |ips|
  {
    if ips == [] then []
    else Put(ChannelMap(ips[..|ips| - 1]), ips[|ips| - 1], YStr(Channel(|ips| - 1)))
  }

  /** One more address: the map grows by one assignment. */
  lemma ChannelMapStep(ips: seq<string>, k: nat)
    requires k < |ips|
    ensures ChannelMap(ips[..k + 1]) == Put(ChannelMap(ips[..k]), ips[k], YStr(Channel(k)))
  {
    assert ips[..k + 1][..k] == ips[..k];
  }

  /** The `sensors` dictionary of `get_current_data`: each row's stripped text mapped to its row's channel. */
  function SensorsOf(rows: seq<string>): seq<(string, Yaml)> {
    ChannelMap(StrippedRows(rows))
  }

  /** One assignment on a repetition-free dictionary whose keys are the listed addresses. */
  lemma PutListed(e: seq<(string, Yaml)>, ips: seq<string>, v: Yaml)
    requires ips != []
    requires Distinct(Keys(e))
    requires forall ip :: ip in Keys(e) <==> ip in ips[..|ips| - 1]
    ensures Distinct(Keys(Put(e, ips[|ips| - 1], v)))
    ensures forall ip :: ip in Keys(Put(e, ips[|ips| - 1], v)) <==> ip in ips
  {
    var k := ips[|ips| - 1];
    PutDistinct(e, k, v);
    PutKeys(e, k, v);
    assert ips == ips[..|ips| - 1] + [k];
  }

  /** The last address is the last assignment. */
  lemma ChannelMapUnfold(ips: seq<string>)
    requires ips != []
    ensures ChannelMap(ips) == Put(ChannelMap(ips[..|ips| - 1]), ips[|ips| - 1], YStr(Channel(|ips| - 1)))
  {
  }

  /** The keys are the addresses, without repeats. */
  lemma {:induction false} ChannelMapKeys(ips: seq<string>)
    ensures Distinct(Keys(ChannelMap(ips)))
    ensures forall ip :: ip in Keys(ChannelMap(ips)) <==> ip in ips
    decreases |ips|
  {
    if ips != [] {
      var n := |ips| - 1;
      ChannelMapUnfold(ips);
      ChannelMapKeys(ips[..n]);
      PutListed(ChannelMap(ips[..n]), ips, YStr(Channel(n)));
    }
  }

  /** A position not last in the list is not last in the list without its final element. */
  lemma LastInPrefix(ips: seq<string>, i: nat)
    requires i < |ips| - 1
    requires forall j :: i < j < |ips| ==> ips[j] != ips[i]
    ensures ips[|ips| - 1] != ips[i]
    ensures var pre := ips[..|ips| - 1]; pre[i] == ips[i] && forall j :: i < j < |pre| ==> pre[j] != pre[i]
  {
  }

  /** Each address holds the channel of its last position. */
  lemma {:induction false} ChannelMapLast(ips: seq<string>, i: nat)
    requires i < |ips|
    requires forall j :: i < j < |ips| ==> ips[j] != ips[i]
    ensures Get(ChannelMap(ips), ips[i]) == Some(YStr(Channel(i)))
    decreases |ips|
  {
    var n := |ips| - 1;
    ChannelMapUnfold(ips);
    GetPut(ChannelMap(ips[..n]), ips[n], YStr(Channel(n)), ips[i]);
    if i < n {
      LastInPrefix(ips, i);
      ChannelMapLast(ips[..n], i);
    }
  }

  /** An address is a key of `sensors` exactly when some row strips to it, and no key occurs twice. */
  lemma SensorsKeys(rows: seq<string>)
    ensures Distinct(Keys(SensorsOf(rows)))
    ensures forall ip :: ip in Keys(SensorsOf(rows)) <==> exists i :: 0 <= i < |rows| && Strip(rows[i]) == ip
  {
    var ips := StrippedRows(rows);
    assert SensorsOf(rows) == ChannelMap(ips);
    ChannelMapKeys(ips);
    forall ip ensures ip in Keys(SensorsOf(rows)) <==> exists i :: 0 <= i < |rows| && Strip(rows[i]) == ip {
      if ip in ips {
        var i :| 0 <= i < |ips| && ips[i] == ip;
        assert Strip(rows[i]) == ip;
      }
      if exists i :: 0 <= i < |rows| && Strip(rows[i]) == ip {
        var i :| 0 <= i < |rows| && Strip(rows[i]) == ip;
        assert ips[i] == ip;
      }
    }
  }

  /** An address listed in several rows gets the channel of the last of them. */
  lemma SensorsLastWins(rows: seq<string>, i: nat)
    requires i < |rows|
    requires forall j :: i < j < |rows| ==> Strip(rows[j]) != Strip(rows[i])
    ensures Get(SensorsOf(rows), Strip(rows[i])) == Some(YStr(Channel(i)))
  {
    var ips := StrippedRows(rows);
    assert ips[i] == Strip(rows[i]);
    assert forall j :: i < j < |ips| ==> ips[j] == Strip(rows[j]);
    ChannelMapLast(ips, i);
  }

  /** `int(text) if text else 0`: `ValueError` for non-empty text that is not an integer. */
  function PortValue(text: string): (r: Result<int, ConfigError>)
    ensures text == "" ==> r == Success(0)
    ensures r.Success? <==> text == "" || ParseInt(text).Some?
    ensures text != "" && r.Success? ==> r == Success(ParseInt(text).value)
    ensures r.Failure? ==> r.error == ValueError
  {
    if text == "" then Success(0)
    else
      match ParseInt(text)
      case None => Failure(ValueError)
      case Some(p) => Success(p)
  }

  /** The port text `populate_fields` writes back is read as the same port number. */
  lemma PortValueText(p: int)
    ensures PortValue(IntText(p)) == Success(p)
  {
    ParseIntText(p);
  }

  /** The three sections of the configuration the form describes. */
  datatype Sections = Sections(naver: Yaml, ntrip: Yaml, sensors: Yaml)

  function SectionsOf(f: Form, port: int): Sections {
    Sections(
      YMap([("id", YStr(f.naverId)), ("key", YStr(f.naverPw))]),
      YMap([("host_address", YStr(f.ntripAddr)), ("host_port", YInt(port)), ("user_id", YStr(f.ntripId)),
            ("user_pw", YStr(f.ntripPw)), ("mount_point", YStr(f.ntripMount))]),
      YMap(SensorsOf(f.rows)))
  }

  function DataOf(s: Sections): Yaml {
    YMap([("naver_client", s.naver), ("ntrip_settings", s.ntrip), ("sensors_ip", s.sensors)])
  }

  /** `get_current_data()`: the configuration the form describes, or the `ValueError` its port text raises. */
  function CurrentData(f: Form): Result<Yaml, ConfigError> {
    match PortValue(f.ntripPort)
    case Failure(e) => Failure(e)
    case Success(p) => Success(DataOf(SectionsOf(f, p)))
  }

  /**
   * The current data exists exactly when the port text parses, and then has
   * exactly the keys `naver_client` (`id`, `key`), `ntrip_settings`
   * (`host_address`, `host_port`, `user_id`, `user_pw`, `mount_point`) and
   * `sensors_ip`, holding the form's texts, the parsed port and the
   * `sensors` dictionary.
   */
  lemma CurrentDataShape(f: Form)
    ensures CurrentData(f).Success? <==> PortValue(f.ntripPort).Success?
    ensures CurrentData(f).Failure? ==> CurrentData(f).error == ValueError
    ensures CurrentData(f).Success? ==>
      var d := CurrentData(f).value;
      && d.YMap? && Keys(d.entries) == ["naver_client", "ntrip_settings", "sensors_ip"]
      && var naver, ntrip := d.entries[0].1, d.entries[1].1;
      && naver == YMap([("id", YStr(f.naverId)), ("key", YStr(f.naverPw))])
      && Keys(naver.entries) == ["id", "key"]
      && ntrip.YMap? && Keys(ntrip.entries) == ["host_address", "host_port", "user_id", "user_pw", "mount_point"]
      && Get(ntrip.entries, "host_address") == Some(YStr(f.ntripAddr))
      && Get(ntrip.entries, "host_port") == Some(YInt(PortValue(f.ntripPort).value))
      && Get(ntrip.entries, "user_id") == Some(YStr(f.ntripId))
      && Get(ntrip.entries, "user_pw") == Some(YStr(f.ntripPw))
      && Get(ntrip.entries, "mount_point") == Some(YStr(f.ntripMount))
      && d.entries[2].1 == YMap(SensorsOf(f.rows))
  {
    if PortValue(f.ntripPort).Success? {
      var p := PortValue(f.ntripPort).value;
      var s := SectionsOf(f, p);
      Keys3(("naver_client", s.naver), ("ntrip_settings", s.ntrip), ("sensors_ip", s.sensors));
      Keys2(("id", YStr(f.naverId)), ("key", YStr(f.naverPw)));
      Keys5(("host_address", YStr(f.ntripAddr)), ("host_port", YInt(p)), ("user_id", YStr(f.ntripId)),
            ("user_pw", YStr(f.ntripPw)), ("mount_point", YStr(f.ntripMount)));
      NtripEntries(f, p);
    }
  }

  // ---------------------------------------------------------------------------
  // populate_fields

  /** `key in c`: keys of a dictionary, items of a list, substrings of a string; `TypeError` otherwise. */
  function In(key: string, c: Yaml): Result<bool, ConfigError> {
    match c
    case YMap(e) => Success(key in Keys(e))
    case YList(items) => Success(YStr(key) in items)
    case YStr(s) => Success(Contains(s, key))
    case _ => Failure(TypeError)
  }

  /** `c[key]` if `key in c`: `None` when it is not, `TypeError` when `c` is not a dictionary. */
  function Section(c: Yaml, key: string): (r: Result<Option<Yaml>, ConfigError>)
    ensures c.YMap? ==> r == Success(Get(c.entries, key))
  {
    match In(key, c)
    case Failure(e) => Failure(e)
    case Success(present) =>
      if !present then
        assert c.YMap? ==> Get(c.entries, key).None? by {
          if c.YMap? { GetMissing(c.entries, key); }
        }
        Success(None)
      else if c.YMap? then Success(Get(c.entries, key))
      else Failure(TypeError)
  }

  /** `section.get(key, default)`; `AttributeError` when the section is not a dictionary. */
  function GetOrDefault(section: Yaml, key: string, default: Yaml): Result<Yaml, ConfigError> {
    if section.YMap? then Success(Get(section.entries, key).GetOr(default)) else Failure(AttributeError)
  }

  /** The text `setText(v)` accepts: a string, or `None` as empty text; `TypeError` for anything else. */
  function TextOf(v: Yaml): Result<string, ConfigError> {
    match v
    case YStr(s) => Success(s)
    case YNull => Success("")
    case _ => Failure(TypeError)
  }

  /** `setText(section.get(key, ''))`. */
  function FieldText(section: Yaml, key: string): Result<string, ConfigError> {
    match GetOrDefault(section, key, YStr(""))
    case Failure(e) => Failure(e)
    case Success(v) => TextOf(v)
  }

  /** The Naver client block: fills the id and key fields when the section is present. */
  function PopulateNaver(c: Yaml, f: Form): (r: Result<Form, ConfigError>)
    ensures r.Success? ==> r.value.(naverId := f.naverId, naverPw := f.naverPw) == f
    ensures Section(c, "naver_client") == Success(None) ==> r == Success(f)
    ensures var sec := Section(c, "naver_client");
      sec.Success? && sec.value.Some? && !sec.value.value.YMap? ==> r == Failure(AttributeError)
  {
    match Section(c, "naver_client")
    case Failure(e) => Failure(e)
    case Success(None) => Success(f)
    case Success(Some(naver)) =>
      match FieldText(naver, "id")
      case Failure(e) => Failure(e)
      case Success(id) =>
        match FieldText(naver, "key")
        case Failure(e) => Failure(e)
        case Success(key) => Success(f.(naverId := id, naverPw := key))
  }

  /** The NTRIP block: fills the five NTRIP fields when the section is present; the port goes through `str`. */
  function PopulateNtrip(c: Yaml, f: Form, repr: Yaml -> string): (r: Result<Form, ConfigError>)
    ensures r.Success? ==>
      r.value.(ntripAddr := f.ntripAddr, ntripPort := f.ntripPort, ntripId := f.ntripId,
               ntripPw := f.ntripPw, ntripMount := f.ntripMount) == f
    ensures Section(c, "ntrip_settings") == Success(None) ==> r == Success(f)
    ensures var sec := Section(c, "ntrip_settings");
      sec.Success? && sec.value.Some? && !sec.value.value.YMap? ==> r == Failure(AttributeError)
  {
    match Section(c, "ntrip_settings")
    case Failure(e) => Failure(e)
    case Success(None) => Success(f)
    case Success(Some(ntrip)) =>
      match FieldText(ntrip, "host_address")
      case Failure(e) => Failure(e)
      case Success(addr) =>
        match GetOrDefault(ntrip, "host_port", YStr(""))
        case Failure(e) => Failure(e)
        case Success(port) =>
          match FieldText(ntrip, "user_id")
          case Failure(e) => Failure(e)
          case Success(id) =>
            match FieldText(ntrip, "user_pw")
            case Failure(e) => Failure(e)
            case Success(pw) =>
              match FieldText(ntrip, "mount_point")
              case Failure(e) => Failure(e)
              case Success(mount) =>
                Success(f.(ntripAddr := addr, ntripPort := PyStr(port, repr), ntripId := id,
                           ntripPw := pw, ntripMount := mount))
  }

  /** The sensor block: one row per key of `sensors_ip`, in order; `AttributeError` if it has no `keys()`. */
  function PopulateSensors(c: Yaml, f: Form): (r: Result<Form, ConfigError>)
    ensures r.Success? ==> r.value.(rows := f.rows) == f
    ensures Section(c, "sensors_ip") == Success(None) ==> r == Success(f)
    ensures var sec := Section(c, "sensors_ip");
      sec.Success? && sec.value.Some? ==>
      var s := sec.value.value;
      r == if s.YMap? then Success(f.(rows := f.rows + Keys(s.entries))) else Failure(AttributeError)
  {
    match Section(c, "sensors_ip")
    case Failure(e) => Failure(e)
    case Success(None) => Success(f)
    case Success(Some(sensors)) =>
      if sensors.YMap? then Success(f.(rows := f.rows + Keys(sensors.entries))) else Failure(AttributeError)
  }

  /**
   * `populate_fields()` on the form `setup_ui` leaves: nothing for a false
   * configuration, otherwise the three blocks in order, stopping at the
   * first exception.
   */
  function Populate(c: Yaml, repr: Yaml -> string): (r: Result<Form, ConfigError>)
    ensures !Truthy(c) ==> r == Success(EmptyForm)
    ensures r.Success? ==> r.value.listIp == ""
  {
    if !Truthy(c) then Success(EmptyForm)
    else
      match PopulateNaver(c, EmptyForm)
      case Failure(e) => Failure(e)
      case Success(f1) =>
        match PopulateNtrip(c, f1, repr)
        case Failure(e) => Failure(e)
        case Success(f2) => PopulateSensors(c, f2)
  }

  /** A dictionary configuration fills only the blocks whose keys it has; the others stay empty. */
  lemma PopulateOnlyPresent(e: seq<(string, Yaml)>, repr: Yaml -> string)
    requires Populate(YMap(e), repr).Success?
    ensures var f := Populate(YMap(e), repr).value;
      && ("naver_client" !in Keys(e) ==> f.naverId == "" && f.naverPw == "")
      && ("ntrip_settings" !in Keys(e) ==>
            f.ntripAddr == "" && f.ntripPort == "" && f.ntripId == "" && f.ntripPw == "" && f.ntripMount == "")
      && ("sensors_ip" !in Keys(e) ==> f.rows == [])
  {
  }

  /** The form that saving `f` and loading the result again shows: the port as an integer, one row per address. */
  function Reloaded(f: Form, port: int): Form {
    EmptyForm.(naverId := f.naverId, naverPw := f.naverPw, ntripAddr := f.ntripAddr, ntripPort := IntText(port),
               ntripId := f.ntripId, ntripPw := f.ntripPw, ntripMount := f.ntripMount,
               rows := Keys(SensorsOf(f.rows)))
  }

  /**
   * What `get_current_data` produces, `populate_fields` reads back: every
   * text field as it was, the port as `str(int(text))` (`0` for empty
   * text), and each distinct stripped address once.
   */
  lemma PopulateCurrentData(f: Form, repr: Yaml -> string)
    requires CurrentData(f).Success?
    ensures Populate(CurrentData(f).value, repr) == Success(Reloaded(f, PortValue(f.ntripPort).value))
  {
    var port := PortValue(f.ntripPort).value;
    var s := SectionsOf(f, port);
    var d := DataOf(s);
    DataSections(s);
    NaverFields(f);
    NtripFields(f, port);
    var f1 := EmptyForm.(naverId := f.naverId, naverPw := f.naverPw);
    assert PopulateNaver(d, EmptyForm) == Success(f1);
    var f2 := f1.(ntripAddr := f.ntripAddr, ntripPort := IntText(port), ntripId := f.ntripId,
                  ntripPw := f.ntripPw, ntripMount := f.ntripMount);
    PopulateNtripWith(d, f1, repr, s.ntrip, f.ntripAddr, YInt(port), f.ntripId, f.ntripPw, f.ntripMount);
    assert f2.rows + Keys(SensorsOf(f.rows)) == Keys(SensorsOf(f.rows));
    assert PopulateSensors(d, f2) == Success(Reloaded(f, port));
    assert CurrentData(f) == Success(d);
    assert Truthy(d);
    assert Populate(d, repr) == PopulateSensors(d, f2);
  }

  /** The NTRIP block when the section and each of its fields can be read. */
  lemma PopulateNtripWith(c: Yaml, f: Form, repr: Yaml -> string, ntrip: Yaml,
                          addr: string, port: Yaml, id: string, pw: string, mount: string)
    requires Section(c, "ntrip_settings") == Success(Some(ntrip))
    requires FieldText(ntrip, "host_address") == Success(addr)
    requires GetOrDefault(ntrip, "host_port", YStr("")) == Success(port)
    requires FieldText(ntrip, "user_id") == Success(id)
    requires FieldText(ntrip, "user_pw") == Success(pw)
    requires FieldText(ntrip, "mount_point") == Success(mount)
    ensures PopulateNtrip(c, f, repr) ==
      Success(f.(ntripAddr := addr, ntripPort := PyStr(port, repr), ntripId := id, ntripPw := pw, ntripMount := mount))
  {
  }

  /** The entry list of a dictionary display: the first entry for the key, or the entries after it. */
  lemma GetCons(k0: string, v0: Yaml, rest: seq<(string, Yaml)>, k: string)
    ensures Get([(k0, v0)] + rest, k) == if k0 == k then Some(v0) else Get(rest, k)
  {
    assert ([(k0, v0)] + rest)[1..] == rest;
  }

  lemma DataSections(s: Sections)
    ensures Section(DataOf(s), "naver_client") == Success(Some(s.naver))
    ensures Section(DataOf(s), "ntrip_settings") == Success(Some(s.ntrip))
    ensures Section(DataOf(s), "sensors_ip") == Success(Some(s.sensors))
  {
    var e := DataOf(s).entries;
    assert e == [("naver_client", s.naver)] + ([("ntrip_settings", s.ntrip)] + [("sensors_ip", s.sensors)]);
    GetCons("naver_client", s.naver, [("ntrip_settings", s.ntrip)] + [("sensors_ip", s.sensors)], "ntrip_settings");
    GetCons("naver_client", s.naver, [("ntrip_settings", s.ntrip)] + [("sensors_ip", s.sensors)], "sensors_ip");
    GetCons("ntrip_settings", s.ntrip, [("sensors_ip", s.sensors)], "sensors_ip");
  }

  lemma NaverFields(f: Form)
    ensures var naver := SectionsOf(f, 0).naver;
      FieldText(naver, "id") == Success(f.naverId) && FieldText(naver, "key") == Success(f.naverPw)
  {
    GetCons("id", YStr(f.naverId), [("key", YStr(f.naverPw))], "key");
  }

  lemma NtripFields(f: Form, port: int)
    ensures var ntrip := SectionsOf(f, port).ntrip;
      && FieldText(ntrip, "host_address") == Success(f.ntripAddr)
      && GetOrDefault(ntrip, "host_port", YStr("")) == Success(YInt(port))
      && FieldText(ntrip, "user_id") == Success(f.ntripId)
      && FieldText(ntrip, "user_pw") == Success(f.ntripPw)
      && FieldText(ntrip, "mount_point") == Success(f.ntripMount)
  {
    NtripEntries(f, port);
  }

  lemma NtripEntries(f: Form, port: int)
    ensures var e := SectionsOf(f, port).ntrip.entries;
      && Get(e, "host_address") == Some(YStr(f.ntripAddr))
      && Get(e, "host_port") == Some(YInt(port))
      && Get(e, "user_id") == Some(YStr(f.ntripId))
      && Get(e, "user_pw") == Some(YStr(f.ntripPw))
      && Get(e, "mount_point") == Some(YStr(f.ntripMount))
  {
    var e4 := [("mount_point", YStr(f.ntripMount))];
    var e3 := [("user_pw", YStr(f.ntripPw))] + e4;
    var e2 := [("user_id", YStr(f.ntripId))] + e3;
    var e1 := [("host_port", YInt(port))] + e2;
    var e0 := [("host_address", YStr(f.ntripAddr))] + e1;
    assert SectionsOf(f, port).ntrip.entries == e0;
    assert "user_id"[5] != "user_pw"[5];
    GetCons("host_address", YStr(f.ntripAddr), e1, "host_address");
    GetCons("host_address", YStr(f.ntripAddr), e1, "host_port");
    GetCons("host_address", YStr(f.ntripAddr), e1, "user_id");
    GetCons("host_address", YStr(f.ntripAddr), e1, "user_pw");
    GetCons("host_address", YStr(f.ntripAddr), e1, "mount_point");
    GetCons("host_port", YInt(port), e2, "host_port");
    GetCons("host_port", YInt(port), e2, "user_id");
    GetCons("host_port", YInt(port), e2, "user_pw");
    GetCons("host_port", YInt(port), e2, "mount_point");
    GetCons("user_id", YStr(f.ntripId), e3, "user_id");
    GetCons("user_id", YStr(f.ntripId), e3, "user_pw");
    GetCons("user_id", YStr(f.ntripId), e3, "mount_point");
    GetCons("user_pw", YStr(f.ntripPw), e4, "user_pw");
    GetCons("user_pw", YStr(f.ntripPw), e4, "mount_point");
    GetCons("mount_point", YStr(f.ntripMount), [], "mount_point");
  }

  /** Loading what was saved and saving again reproduces the port number. */
  lemma ReloadedPort(f: Form)
    requires CurrentData(f).Success?
    ensures PortValue(Reloaded(f, PortValue(f.ntripPort).value).ntripPort) == PortValue(f.ntripPort)
  {
    PortValueText(PortValue(f.ntripPort).value);
  }

  // ---------------------------------------------------------------------------
  // save_config

  /** The three assignments of `save_config`, applied to the loaded dictionary. */
  function Merge(e: seq<(string, Yaml)>, s: Sections): seq<(string, Yaml)> {
    Put(Put(Put(e, "naver_client", s.naver), "ntrip_settings", s.ntrip), "sensors_ip", s.sensors)
  }

  /** Saving replaces exactly the three sections with the form's values; every other key keeps its value. */
  lemma MergeGet(e: seq<(string, Yaml)>, s: Sections, k: string)
    ensures Get(Merge(e, s), k) ==
      if k == "naver_client" then Some(s.naver)
      else if k == "ntrip_settings" then Some(s.ntrip)
      else if k == "sensors_ip" then Some(s.sensors)
      else Get(e, k)
  {
    var e1 := Put(e, "naver_client", s.naver);
    var e2 := Put(e1, "ntrip_settings", s.ntrip);
    assert Merge(e, s) == Put(e2, "sensors_ip", s.sensors);
    GetPut(e, "naver_client", s.naver, k);
    GetPut(e1, "ntrip_settings", s.ntrip, k);
    GetPut(e2, "sensors_ip", s.sensors, k);
  }

  /** Saving keeps the existing keys in their order, adds only missing section keys, and never repeats a key. */
  lemma MergeKeys(e: seq<(string, Yaml)>, s: Sections)
    ensures Keys(e) <= Keys(Merge(e, s))
    ensures forall x :: x in Keys(Merge(e, s)) <==> x in Keys(e) || x in ["naver_client", "ntrip_settings", "sensors_ip"]
    ensures Distinct(Keys(e)) ==> Distinct(Keys(Merge(e, s)))
  {
    var e1 := Put(e, "naver_client", s.naver);
    var e2 := Put(e1, "ntrip_settings", s.ntrip);
    var e3 := Put(e2, "sensors_ip", s.sensors);
    assert Merge(e, s) == e3;
    PutKeys(e, "naver_client", s.naver);
    PutKeys(e1, "ntrip_settings", s.ntrip);
    PutKeys(e2, "sensors_ip", s.sensors);
    if Distinct(Keys(e)) {
      PutDistinct(e, "naver_client", s.naver);
      PutDistinct(e1, "ntrip_settings", s.ntrip);
      PutDistinct(e2, "sensors_ip", s.sensors);
    }
  }

  // ---------------------------------------------------------------------------
  // The dialog

  class ConfigManager {
    /** The loaded configuration, which Save updates. */
    var configData: Yaml
    /** What OK handed back; `None` until then. */
    var resultData: Option<Yaml>
    var form: Form
    /** Whether the dialog was accepted. */
    var accepted: bool
    const repr: Yaml -> string

    constructor Populated(config: Yaml, f: Form, repr: Yaml -> string)
      ensures configData == config && form == f && resultData == None && !accepted && this.repr == repr
    {
      configData, form, resultData, accepted, this.repr := config, f, None, false, repr;
    }

    /**
     * Opening the dialog on a loaded configuration: the form is filled from
     * it, or the exception `populate_fields` raises aborts the construction.
     */
    static method Open(config: Yaml, repr: Yaml -> string) returns (r: Result<ConfigManager, ConfigError>)
      ensures Populate(config, repr).Failure? ==> r == Failure(Populate(config, repr).error)
      ensures Populate(config, repr).Success? ==>
        && r.Success? && fresh(r.value)
        && r.value.configData == config && r.value.form == Populate(config, repr).value
        && r.value.resultData == None && !r.value.accepted
    {
      var populated := Populate(config, repr);
      if populated.Failure? {
        return Failure(populated.error);
      }
      var m := new ConfigManager.Populated(config, populated.value, repr);
      r := Success(m);
    }

    /** `add_sensor`. */
    method AddSensor()
      modifies this
      ensures form == WithSensor(old(form))
      ensures configData == old(configData) && resultData == old(resultData) && accepted == old(accepted)
    {
      var ip := Strip(form.listIp);
      if ip == "" {
        return;
      }
      form := form.(rows := form.rows + [ip]);
      form := form.(listIp := "");
    }

    /** Clicking a row's delete button removes that row. */
    method DeleteRow(k: nat)
      requires k < |form.rows|
      modifies this
      ensures form == old(form).(rows := old(form).rows[..k] + old(form).rows[k + 1..])
      ensures configData == old(configData) && resultData == old(resultData) && accepted == old(accepted)
    {
      form := form.(rows := form.rows[..k] + form.rows[k + 1..]);
    }

    /** `get_current_data`, building the `sensors` dictionary row by row. */
    method GetCurrentData() returns (r: Result<Yaml, ConfigError>)
      ensures r == CurrentData(form)
    {
      var rows := form.rows;
      ghost var ips := StrippedRows(rows);
      var sensors: seq<(string, Yaml)> := [];
      var i := 0;
      while i < |rows|
        invariant 0 <= i <= |rows|
        invariant sensors == ChannelMap(ips[..i])
      {
        var ip := Strip(rows[i]);
        var ch := Channel(i);
        ChannelMapStep(ips, i);
        sensors := Put(sensors, ip, YStr(ch));
        i := i + 1;
      }
      assert ips[..|rows|] == ips;
      var port: int;
      if form.ntripPort == "" {
        port := 0;
      } else {
        var parsed := ParseInt(form.ntripPort);
        if parsed.None? {
          return Failure(ValueError);
        }
        port := parsed.value;
      }
      var naver := YMap([("id", YStr(form.naverId)), ("key", YStr(form.naverPw))]);
      var ntrip := YMap([("host_address", YStr(form.ntripAddr)), ("host_port", YInt(port)),
                         ("user_id", YStr(form.ntripId)), ("user_pw", YStr(form.ntripPw)),
                         ("mount_point", YStr(form.ntripMount))]);
      r := Success(YMap([("naver_client", naver), ("ntrip_settings", ntrip), ("sensors_ip", YMap(sensors))]));
    }

    /**
     * `save_config`: a `None` configuration becomes `{}`; then the form's
     * sections replace the three keys. The exception raised on bad port text
     * or a configuration that is not a dictionary is reported and leaves the
     * configuration as it stood.
     */
    method SaveConfig() returns (r: Result<(), ConfigError>)
      modifies this
      ensures var base := if old(configData).YNull? then YMap([]) else old(configData);
        match CurrentData(form)
        case Failure(e) => configData == base && r == Failure(e)
        case Success(_) =>
          if base.YMap?
          then configData == YMap(Merge(base.entries, SectionsOf(form, PortValue(form.ntripPort).value)))
               && r == Success(())
          else configData == base && r == Failure(TypeError)
      ensures form == old(form) && resultData == old(resultData) && accepted == old(accepted)
    {
      if configData.YNull? {
        configData := YMap([]);
      }
      var current := GetCurrentData();
      if current.Failure? {
        return Failure(current.error);
      }
      if !configData.YMap? {
        return Failure(TypeError);
      }
      var s := SectionsOf(form, PortValue(form.ntripPort).value);
      assert current.value == DataOf(s);
      DataSections(s);
      var e := configData.entries;
      e := Put(e, "naver_client", Get(current.value.entries, "naver_client").value);
      e := Put(e, "ntrip_settings", Get(current.value.entries, "ntrip_settings").value);
      e := Put(e, "sensors_ip", Get(current.value.entries, "sensors_ip").value);
      configData := YMap(e);
      r := Success(());
    }

    /** `ok_clicked`: keeps the current data as the result and accepts the dialog. */
    method OkClicked() returns (r: Result<(), ConfigError>)
      modifies this
      ensures CurrentData(form).Success? ==>
        resultData == Some(CurrentData(form).value) && accepted && r == Success(())
      ensures CurrentData(form).Failure? ==>
        resultData == old(resultData) && accepted == old(accepted) && r == Failure(CurrentData(form).error)
      ensures form == old(form) && configData == old(configData)
    {
      var current := GetCurrentData();
      if current.Failure? {
        return Failure(current.error);
      }
      resultData := Some(current.value);
      accepted := true;
      r := Success(());
    }

    /** `get_result`: the snapshot `OkClicked` stored, or `None` before it succeeded. */
    function GetResult(): Option<Yaml>
      reads this
    {
      resultData
    }
  }
}

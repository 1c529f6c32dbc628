/** benchmark/alibaba/settings.py: the cloud-testbed settings record and its
    loading from the settings JSON file. */
module CloudSettings {
  import opened Wrappers
  import opened PyJson

  /** Why a SettingsError is raised. */
  datatype Reason = InvalidTypes | Malformed(key: string) | Unreadable

  /** A SettingsError, or a TypeError no `except` clause catches. */
  datatype Failure = SettingsError(reason: Reason) | Uncaught(error: PyError)

  datatype Settings = Settings(
    keyName: string, keyPath: string, accesskeyPath: Json, consensusPort: Json,
    instanceType: string, regions: seq<string>)

  /** `all(isinstance(x, str) for x in xs)`. */
  predicate AllStr(xs: seq<Json>)
  {
    forall i :: 0 <= i < |xs| ==> IsStr(xs[i])
  }

  function Strings(xs: seq<Json>): (ss: seq<string>)
    requires AllStr(xs)
    ensures |ss| == |xs| && forall i :: 0 <= i < |xs| ==> xs[i] == JStr(ss[i])
  {
    seq(|xs|, i requires 0 <= i < |xs| => xs[i].s)
  }

  /** `Settings.__init__`: the key name, key path, instance type and every
      region must be strings, the port an int, and there must be a region;
      the access-key path is not checked. */
  function NewSettings(keyName: Json, keyPath: Json, accesskeyPath: Json, consensusPort: Json,
                       instanceType: Json, awsRegions: Json): (r: Result<Settings, Failure>)
    ensures r.Ok? <==>
      && IsStr(keyName) && IsStr(keyPath) && IsStr(instanceType) && IsInt(consensusPort)
      && AllStr(AsList(awsRegions)) && |AsList(awsRegions)| > 0
    ensures r.Err? ==> r.error == SettingsError(InvalidTypes)
    ensures r.Ok? ==>
      && JStr(r.value.keyName) == keyName && JStr(r.value.keyPath) == keyPath
      && JStr(r.value.instanceType) == instanceType
      && r.value.accesskeyPath == accesskeyPath && r.value.consensusPort == consensusPort
      && |r.value.regions| == |AsList(awsRegions)|
      && forall i :: 0 <= i < |r.value.regions| ==> AsList(awsRegions)[i] == JStr(r.value.regions[i])
  {
    var regions := AsList(awsRegions);
    var inputsStr := [keyName, keyPath, instanceType] + regions;
    var ok := AllStr(inputsStr) && IsInt(consensusPort) && |regions| > 0;
    assert AllStr(inputsStr) <==> IsStr(keyName) && IsStr(keyPath) && IsStr(instanceType) && AllStr(regions) by {
      assert inputsStr[0] == keyName && inputsStr[1] == keyPath && inputsStr[2] == instanceType;
      assert forall i :: 0 <= i < |regions| ==> inputsStr[i + 3] == regions[i];
    }
    if !ok then Err(SettingsError(InvalidTypes))
    else Ok(Settings(keyName.s, keyPath.s, accesskeyPath, consensusPort, instanceType.s, Strings(regions)))
  }

  /** A single region is taken as a list of one. */
  lemma SingleRegion(keyName: string, keyPath: string, accesskeyPath: Json, port: int, instanceType: string, region: string)
    ensures NewSettings(JStr(keyName), JStr(keyPath), accesskeyPath, JInt(port), JStr(instanceType), JStr(region))
      == Ok(Settings(keyName, keyPath, accesskeyPath, JInt(port), instanceType, [region]))
  {
    var r := NewSettings(JStr(keyName), JStr(keyPath), accesskeyPath, JInt(port), JStr(instanceType), JStr(region));
    assert r.Ok? && |r.value.regions| == 1 && r.value.regions[0] == region;
    assert r.value.regions == [region];
  }

  /** The settings file's lookups, in the order `load` evaluates them. */
  const SETTINGS_KEYS: seq<(string, string)> := [
    ("key", "name"), ("key", "path"), ("key", "accesskey"),
    ("ports", "consensus"), ("instances", "type"), ("instances", "regions")]

  /** The six values, or the error of the first lookup that fails. */
  function LookupAll(data: Json, keys: seq<(string, string)>): (r: Result<seq<Json>, PyError>)
    ensures r.Ok? <==> forall i :: 0 <= i < |keys| ==> Get2(data, keys[i].0, keys[i].1).Ok?
    ensures r.Ok? ==> |r.value| == |keys| && forall i :: 0 <= i < |keys| ==> r.value[i] == Get2(data, keys[i].0, keys[i].1).value
    ensures r.Err? ==> exists i :: 0 <= i < |keys| && Get2(data, keys[i].0, keys[i].1) == Err(r.error)
  {
    if keys == [] then Ok([])
    else
      var first :- Get2(data, keys[0].0, keys[0].1);
      var rest := LookupAll(data, keys[1..]);
      assert forall i :: 1 <= i < |keys| ==> keys[1..][i - 1] == keys[i];
      if rest.Err? then
        var i :| 0 <= i < |keys| - 1 && Get2(data, keys[1..][i].0, keys[1..][i].1) == Err(rest.error);
        assert keys[i + 1] == keys[1..][i];
        Err(rest.error)
      else
        Ok([first] + rest.value)
  }

  /** `Settings.load`, with the file read and decoded by the caller: None
      stands for an OSError or a JSONDecodeError, which become a
      SettingsError. A missing key is a "Malformed settings" error; a
      validation error of the constructor passes through unchanged. */
  function Load(data: Option<Json>): (r: Result<Settings, Failure>)
    ensures data.None? ==> r == Err(SettingsError(Unreadable))
    ensures data.Some? && LookupAll(data.value, SETTINGS_KEYS).Ok? ==>
      var v := LookupAll(data.value, SETTINGS_KEYS).value;
      r == NewSettings(v[0], v[1], v[2], v[3], v[4], v[5])
    ensures r.Err? && r.error.SettingsError? && r.error.reason.Malformed? ==>
      data.Some? && exists i :: 0 <= i < |SETTINGS_KEYS| && Get2(data.value, SETTINGS_KEYS[i].0, SETTINGS_KEYS[i].1) == Err(KeyError(r.error.reason.key))
    ensures r.Err? && r.error.Uncaught? ==> r.error.error == TypeError
  {
    if data.None? then Err(SettingsError(Unreadable))
    else
      var found := LookupAll(data.value, SETTINGS_KEYS);
      if found.Err? then
        if found.error.KeyError? then Err(SettingsError(Malformed(found.error.key)))
        else
          assert found.error == TypeError by {
            var i :| 0 <= i < |SETTINGS_KEYS| && Get2(data.value, SETTINGS_KEYS[i].0, SETTINGS_KEYS[i].1) == Err(found.error);
            Get2Errors(data.value, SETTINGS_KEYS[i].0, SETTINGS_KEYS[i].1);
          }
          Err(Uncaught(found.error))
      else
        var v := found.value;
        NewSettings(v[0], v[1], v[2], v[3], v[4], v[5])
  }

  /** A nested lookup raises only KeyError or TypeError. */
  lemma Get2Errors(j: Json, k1: string, k2: string)
    ensures Get2(j, k1, k2).Err? ==> Get2(j, k1, k2).error.KeyError? || Get2(j, k1, k2).error == TypeError
  {
  }

  /** The settings document holding exactly the given values. */
  function SettingsDoc(name: string, path: string, accesskey: Json, port: int, kind: string, regions: seq<Json>): Json
  {
    JDict(map[
      "key" := JDict(map["name" := JStr(name), "path" := JStr(path), "accesskey" := accesskey]),
      "ports" := JDict(map["consensus" := JInt(port)]),
      "instances" := JDict(map["type" := JStr(kind), "regions" := JList(regions)])])
  }

  /** A settings file with every key, string names and regions and an int
      port loads to exactly those values. */
  lemma LoadWellFormed(name: string, path: string, accesskey: Json, port: int, kind: string, regions: seq<string>)
    requires |regions| > 0
    ensures Load(Some(SettingsDoc(name, path, accesskey, port, kind, seq(|regions|, i requires 0 <= i < |regions| => JStr(regions[i])))))
      == Ok(Settings(name, path, accesskey, JInt(port), kind, regions))
  {
    var list := seq(|regions|, i requires 0 <= i < |regions| => JStr(regions[i]));
    var data := SettingsDoc(name, path, accesskey, port, kind, list);
    DocLookups(name, path, accesskey, port, kind, list);
    var r := NewSettings(JStr(name), JStr(path), accesskey, JInt(port), JStr(kind), JList(list));
    assert r.Ok? && |r.value.regions| == |regions|;
    assert r.value.regions == regions;
  }

  /** Every lookup of `load` finds its value in such a document. */
  lemma DocLookups(name: string, path: string, accesskey: Json, port: int, kind: string, regions: seq<Json>)
    ensures LookupAll(SettingsDoc(name, path, accesskey, port, kind, regions), SETTINGS_KEYS)
      == Ok([JStr(name), JStr(path), accesskey, JInt(port), JStr(kind), JList(regions)])
  {
    var data := SettingsDoc(name, path, accesskey, port, kind, regions);
    var want := [JStr(name), JStr(path), accesskey, JInt(port), JStr(kind), JList(regions)];
    assert Get2(data, "key", "name") == Ok(want[0]);
    assert Get2(data, "key", "path") == Ok(want[1]);
    assert Get2(data, "key", "accesskey") == Ok(want[2]);
    assert Get2(data, "ports", "consensus") == Ok(want[3]);
    assert Get2(data, "instances", "type") == Ok(want[4]);
    assert Get2(data, "instances", "regions") == Ok(want[5]);
    assert forall i :: 0 <= i < |SETTINGS_KEYS| ==> Get2(data, SETTINGS_KEYS[i].0, SETTINGS_KEYS[i].1) == Ok(want[i]);
    var found := LookupAll(data, SETTINGS_KEYS);
    assert found.value == want;
  }
}

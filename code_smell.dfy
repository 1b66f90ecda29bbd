/**
 * One reported code smell: its priority, location and descriptive fields,
 * the derived severity, the readable symbol and the JSON projection.
 */
module CodeSmells {
  import opened Wrappers
  import opened Records
  import opened Priorities
  import opened Locations
  import opened JsonValues

  /**
   * A CodeSmell. `priority` is the source's `type` attribute (a keyword in
   * Dafny); the other fields are the record values stored unchanged.
   */
  datatype CodeSmell = CodeSmell(
    priority: Priority,
    location: Location,
    symbol: Value,
    message: Value,
    messageId: Value)
  {
    /** `severity()`: the rank of the smell's priority. */
    function Severity(): (r: int)
      ensures 0 <= r <= 3
      ensures r == 3 <==> priority == Error
      ensures r == 2 <==> priority == Warning
      ensures r == 1 <==> priority == Refactor
      ensures r == 0 <==> priority == Convention
    {
      SeverityTable();
      SeverityIsRank(priority);
      Priorities.Severity(priority)
    }
  }

  /**
   * Every key the constructor reads, in the order it reads them: `type`
   * (resolved to a Priority at once), the Location keys, then the rest.
   */
  const SmellKeys: seq<string> := ["type"] + LocationKeys + ["symbol", "message", "message-id"]

  lemma SmellKeysInOrder(data: Record)
    ensures FirstMissing(SmellKeys, data) ==
      if "type" !in data then Some("type")
      else if FirstMissing(LocationKeys, data).Some? then FirstMissing(LocationKeys, data)
      else if "symbol" !in data then Some("symbol")
      else if "message" !in data then Some("message")
      else if "message-id" !in data then Some("message-id")
      else None
  {
    var tail := ["symbol", "message", "message-id"];
    assert SmellKeys == ["type"] + (LocationKeys + tail);
    FirstMissingCons("type", LocationKeys + tail, data);
    FirstMissingAppend(LocationKeys, tail, data);
    FirstMissingCons("symbol", ["message", "message-id"], data);
    FirstMissingCons("message", ["message-id"], data);
    FirstMissingCons("message-id", [], data);
  }

  /**
   * `CodeSmell(data)`. The steps run in the source's order: read `type` and
   * look it up, build the Location, then read `symbol`, `message` and
   * `message-id`; the first step that fails decides the error.
   */
  function ParseCodeSmell(data: Record): (r: Result<CodeSmell, Fault>)
    ensures r.Success? <==>
      && "type" in data
      && GetPriority(data["type"]).Success?
      && ParseLocation(data).Success?
      && "symbol" in data && "message" in data && "message-id" in data
    ensures r.Success? ==>
      && LowerName(r.value.priority) == data["type"].s
      && Success(r.value.location) == ParseLocation(data)
      && r.value.symbol == data["symbol"]
      && r.value.message == data["message"]
      && r.value.messageId == data["message-id"]
  {
    var name :- Get(data, "type");
    var priority :- GetPriority(name);
    var location :- ParseLocation(data);
    var symbol :- Get(data, "symbol");
    var message :- Get(data, "message");
    var messageId :- Get(data, "message-id");
    Success(CodeSmell(priority, location, symbol, message, messageId))
  }

  /**
   * Which error a failed construction raises: an unknown `type` wins over any
   * missing key after it; otherwise the first missing key in reading order.
   */
  lemma ParseCodeSmellError(data: Record)
    requires ParseCodeSmell(data).Failure?
    ensures "type" in data && GetPriority(data["type"]).Failure? ==>
      ParseCodeSmell(data).error == UnknownPriority(data["type"])
    ensures "type" !in data || GetPriority(data["type"]).Success? ==>
      ParseCodeSmell(data).error.MissingKey? && FirstMissing(SmellKeys, data) == Some(ParseCodeSmell(data).error.key)
  {
    var r := ParseCodeSmell(data);
    SmellKeysInOrder(data);
    if "type" !in data {
      assert r.error == MissingKey("type");
    } else if GetPriority(data["type"]).Failure? {
    } else if ParseLocation(data).Failure? {
      assert r.error == ParseLocation(data).error;
    } else {
      LocationKeysInOrder(data);
    }
  }

  /** `str.replace('-', ' ')` */
  function ReplaceHyphens(s: string): (r: string)
    ensures |r| == |s|
    ensures forall i :: 0 <= i < |s| ==> r[i] == if s[i] == '-' then ' ' else s[i]
  {
    if s == [] then [] else [if s[0] == '-' then ' ' else s[0]] + ReplaceHyphens(s[1..])
  }

  /** The readable symbol has no hyphen left. */
  lemma ReplaceHyphensRemovesAll(s: string)
    ensures '-' !in ReplaceHyphens(s)
  {
    var r := ReplaceHyphens(s);
    forall i | 0 <= i < |r| ensures r[i] != '-' {}
  }

  /** Replacing twice is replacing once. */
  lemma ReplaceHyphensIdempotent(s: string)
    ensures ReplaceHyphens(ReplaceHyphens(s)) == ReplaceHyphens(s)
  {
  }

  /** A symbol without hyphens is already readable. */
  lemma ReplaceHyphensHyphenFree(s: string)
    requires '-' !in s
    ensures ReplaceHyphens(s) == s
  {
    assert forall i :: 0 <= i < |s| ==> s[i] != '-';
  }

  /**
   * `get_readable_symbol()`: the symbol with every hyphen turned into a space.
   * A symbol that is not a string has no `replace` (an AttributeError).
   */
  function ReadableSymbol(c: CodeSmell): (r: Result<string, Fault>)
    ensures r.Success? <==> c.symbol.Str?
    ensures r.Success? ==> |r.value| == |c.symbol.s| && '-' !in r.value
    ensures r.Success? ==> forall i :: 0 <= i < |r.value| ==>
      r.value[i] == if c.symbol.s[i] == '-' then ' ' else c.symbol.s[i]
    ensures r.Failure? ==> r.error == NotAString("symbol")
  {
    if c.symbol.Str? then
      ReplaceHyphensRemovesAll(c.symbol.s);
      Success(ReplaceHyphens(c.symbol.s))
    else
      Failure(NotAString("symbol"))
  }

  /** A Location's `__dict__`, in attribute order. */
  function LocationFields(l: Location): seq<(string, Json)> {
    [ ("module", FromValue(l.moduleName)),
      ("python_object", FromValue(l.pythonObject)),
      ("line", FromValue(l.line)),
      ("column", FromValue(l.column)),
      ("end_line", FromValue(l.endLine)),
      ("path", FromValue(l.path)) ]
  }

  /**
   * A CodeSmell's `__dict__`, in attribute order, with the Location already
   * encoded as `location`. The `type` attribute holds the enum member, shown
   * here by its name; the hook always overwrites it before encoding.
   */
  function SmellFields(c: CodeSmell, location: Json): seq<(string, Json)> {
    [ ("type", JStr(Name(c.priority))),
      ("location", location),
      ("symbol", FromValue(c.symbol)),
      ("message", FromValue(c.message)),
      ("message_id", FromValue(c.messageId)) ]
  }

  /**
   * The `default` hook of `jsonify`, applied to an object whose `__dict__`
   * is `fields`: `{**fields, 'severity': c.severity(), 'type': <lower-case name>}`.
   * It always uses the smell's own severity and type, whatever the object.
   */
  function Hook(fields: seq<(string, Json)>, c: CodeSmell): seq<(string, Json)> {
    Put(Put(fields, "severity", JInt(c.Severity())), "type", JStr(LowerName(c.priority)))
  }

  /** The nested Location as encoded: the hook applied to the Location's `__dict__`. */
  function EncodeLocation(c: CodeSmell): Json {
    JObject(Hook(LocationFields(c.location), c))
  }

  /**
   * `jsonify()`, as the structure handed to the encoder: the hook applied to
   * the smell, and again to its nested Location.
   */
  function Jsonify(c: CodeSmell): Json {
    JObject(Hook(SmellFields(c, EncodeLocation(c)), c))
  }

  /** The hook sets `severity` and `type` and leaves every other entry as it was. */
  lemma HookLookup(fields: seq<(string, Json)>, c: CodeSmell, k: string)
    ensures Lookup(Hook(fields, c), k) ==
      if k == "type" then Some(JStr(LowerName(c.priority)))
      else if k == "severity" then Some(JInt(c.Severity()))
      else Lookup(fields, k)
  {
    var withSeverity := Put(fields, "severity", JInt(c.Severity()));
    PutThenLookup(fields, "severity", JInt(c.Severity()));
    PutThenLookup(withSeverity, "type", JStr(LowerName(c.priority)));
    if k != "type" {
      PutLeavesOthers(withSeverity, "type", JStr(LowerName(c.priority)), k);
      if k != "severity" {
        PutLeavesOthers(fields, "severity", JInt(c.Severity()), k);
      }
    }
  }

  /** On a `__dict__` that has `type` but no `severity`, the hook appends `severity` only. */
  lemma HookKeys(fields: seq<(string, Json)>, c: CodeSmell)
    requires "type" in Keys(fields) && "severity" !in Keys(fields)
    ensures Keys(Hook(fields, c)) == Keys(fields) + ["severity"]
  {
    var withSeverity := Put(fields, "severity", JInt(c.Severity()));
    assert Keys(withSeverity) == Keys(fields) + ["severity"];
    assert "type" in Keys(withSeverity);
  }

  /** The smell's `__dict__` lists its five attribute names once each, `type` first. */
  lemma SmellFieldsKeys(c: CodeSmell, location: Json)
    ensures Keys(SmellFields(c, location)) == ["type", "location", "symbol", "message", "message_id"]
    ensures DistinctKeys(SmellFields(c, location))
  {
    var d := SmellFields(c, location);
    assert d[0].0[0] == 't' && d[1].0[0] == 'l' && d[2].0[0] == 's';
    assert d[3].0[0] == 'm' && d[4].0[0] == 'm' && |d[3].0| != |d[4].0|;
  }

  /** The smell's `__dict__` has a `type` entry and no `severity` entry. */
  lemma SmellFieldsHookKeys(c: CodeSmell, location: Json)
    ensures "type" in Keys(SmellFields(c, location)) && "severity" !in Keys(SmellFields(c, location))
  {
    SmellFieldsKeys(c, location);
    assert Keys(SmellFields(c, location))[0] == "type";
    assert |"severity"| == 8 && "severity"[0] == 's';
  }

  /**
   * The top level of `jsonify()` keeps the smell's attribute order, with
   * `type` rewritten in place and `severity` appended.
   */
  lemma JsonifyKeys(c: CodeSmell)
    ensures Jsonify(c).JObject?
    ensures Keys(Jsonify(c).members) == ["type", "location", "symbol", "message", "message_id", "severity"]
  {
    SmellFieldsKeys(c, EncodeLocation(c));
    SmellFieldsHookKeys(c, EncodeLocation(c));
    HookKeys(SmellFields(c, EncodeLocation(c)), c);
  }

  /**
   * At the top level of `jsonify()`, `severity` is the computed rank and
   * `type` is the priority's lower-case name.
   */
  lemma JsonifyOverrides(c: CodeSmell)
    ensures Lookup(Jsonify(c).members, "severity") == Some(JInt(c.Severity()))
    ensures Lookup(Jsonify(c).members, "type") == Some(JStr(LowerName(c.priority)))
  {
    HookLookup(SmellFields(c, EncodeLocation(c)), c, "severity");
    HookLookup(SmellFields(c, EncodeLocation(c)), c, "type");
  }

  /** Every key other than `type` and `severity` looks up at the top level as in the smell's `__dict__`. */
  lemma JsonifyKeepsAttributes(c: CodeSmell, k: string)
    requires k != "type" && k != "severity"
    ensures Lookup(Jsonify(c).members, k) == Lookup(SmellFields(c, EncodeLocation(c)), k)
  {
    HookLookup(SmellFields(c, EncodeLocation(c)), c, k);
  }

  /** The smell's `__dict__` holds the encoded location and the smell's own attribute values. */
  lemma SmellFieldsValues(c: CodeSmell, location: Json)
    ensures Lookup(SmellFields(c, location), "location") == Some(location)
    ensures Lookup(SmellFields(c, location), "symbol") == Some(FromValue(c.symbol))
    ensures Lookup(SmellFields(c, location), "message") == Some(FromValue(c.message))
    ensures Lookup(SmellFields(c, location), "message_id") == Some(FromValue(c.messageId))
  {
    SmellFieldsKeys(c, location);
    LookupAt(SmellFields(c, location), 1);
    LookupAt(SmellFields(c, location), 2);
    LookupAt(SmellFields(c, location), 3);
    LookupAt(SmellFields(c, location), 4);
  }

  /** The smell's other attributes reach the top level of `jsonify()` unchanged. */
  lemma JsonifyAttributes(c: CodeSmell)
    ensures Lookup(Jsonify(c).members, "location") == Some(EncodeLocation(c))
    ensures Lookup(Jsonify(c).members, "symbol") == Some(FromValue(c.symbol))
    ensures Lookup(Jsonify(c).members, "message") == Some(FromValue(c.message))
    ensures Lookup(Jsonify(c).members, "message_id") == Some(FromValue(c.messageId))
  {
    SmellFieldsValues(c, EncodeLocation(c));
    JsonifyKeepsAttributes(c, "location");
    JsonifyKeepsAttributes(c, "symbol");
    JsonifyKeepsAttributes(c, "message");
    JsonifyKeepsAttributes(c, "message_id");
  }

  /** A Location's `__dict__` lists its six attribute names in order. */
  lemma LocationFieldsKeys(l: Location)
    ensures Keys(LocationFields(l)) == ["module", "python_object", "line", "column", "end_line", "path"]
  {
  }

  /** No Location attribute name occurs twice. */
  lemma LocationFieldsDistinct(l: Location)
    ensures DistinctKeys(LocationFields(l))
  {
    var d := LocationFields(l);
    assert d[0].0[0] == 'm' && d[1].0[0] == 'p' && d[2].0[0] == 'l';
    assert d[3].0[0] == 'c' && d[4].0[0] == 'e' && d[5].0[0] == 'p';
    assert |d[1].0| != |d[5].0|;
  }

  /** Neither `type` nor `severity` is a Location attribute. */
  lemma LocationFieldsLackHookKeys(l: Location)
    ensures "type" !in Keys(LocationFields(l)) && "severity" !in Keys(LocationFields(l))
  {
    LocationFieldsKeys(l);
    assert "type"[0] == 't' && "severity"[0] == 's';
  }

  /** On a `__dict__` with neither key, the hook appends `severity` and then `type`. */
  lemma HookKeysAppend(fields: seq<(string, Json)>, c: CodeSmell)
    requires "type" !in Keys(fields) && "severity" !in Keys(fields)
    ensures Keys(Hook(fields, c)) == Keys(fields) + ["severity", "type"]
  {
    var withSeverity := Put(fields, "severity", JInt(c.Severity()));
    assert Keys(withSeverity) == Keys(fields) + ["severity"];
    assert "type" != "severity" by {
      assert |"type"| != |"severity"|;
    }
    NotInAppend("type", Keys(fields), "severity");
    assert Keys(Hook(fields, c)) == (Keys(fields) + ["severity"]) + ["type"];
    AppendTwo(Keys(fields), "severity", "type");
  }

  /**
   * The nested `location` object of `jsonify()`: the Location's six
   * attributes in order, then the smell's `severity` and `type`, because
   * the encoder's hook runs on the Location too.
   */
  lemma EncodeLocationKeys(c: CodeSmell)
    ensures EncodeLocation(c).JObject?
    ensures Keys(EncodeLocation(c).members) ==
      ["module", "python_object", "line", "column", "end_line", "path", "severity", "type"]
  {
    LocationFieldsKeys(c.location);
    LocationFieldsLackHookKeys(c.location);
    HookKeysAppend(LocationFields(c.location), c);
  }

  /** The nested `location` object carries the smell's severity and lower-case type. */
  lemma EncodeLocationOverrides(c: CodeSmell)
    ensures Lookup(EncodeLocation(c).members, "severity") == Some(JInt(c.Severity()))
    ensures Lookup(EncodeLocation(c).members, "type") == Some(JStr(LowerName(c.priority)))
  {
    HookLookup(LocationFields(c.location), c, "severity");
    HookLookup(LocationFields(c.location), c, "type");
  }

  /** Every key other than `type` and `severity` looks up in the nested `location` as in the Location's `__dict__`. */
  lemma EncodeLocationKeepsAttributes(c: CodeSmell, k: string)
    requires k != "type" && k != "severity"
    ensures Lookup(EncodeLocation(c).members, k) == Lookup(LocationFields(c.location), k)
  {
    HookLookup(LocationFields(c.location), c, k);
  }

  /** The Location's `__dict__` holds its attribute values. */
  lemma LocationFieldsValues(l: Location)
    ensures Lookup(LocationFields(l), "module") == Some(FromValue(l.moduleName))
    ensures Lookup(LocationFields(l), "python_object") == Some(FromValue(l.pythonObject))
    ensures Lookup(LocationFields(l), "line") == Some(FromValue(l.line))
    ensures Lookup(LocationFields(l), "column") == Some(FromValue(l.column))
    ensures Lookup(LocationFields(l), "end_line") == Some(FromValue(l.endLine))
    ensures Lookup(LocationFields(l), "path") == Some(FromValue(l.path))
  {
    LocationFieldsDistinct(l);
    LookupAt(LocationFields(l), 0);
    LookupAt(LocationFields(l), 1);
    LookupAt(LocationFields(l), 2);
    LookupAt(LocationFields(l), 3);
    LookupAt(LocationFields(l), 4);
    LookupAt(LocationFields(l), 5);
  }

  /** The nested `location` object exposes the Location's own attributes unchanged. */
  lemma EncodeLocationAttributes(c: CodeSmell)
    ensures Lookup(EncodeLocation(c).members, "module") == Some(FromValue(c.location.moduleName))
    ensures Lookup(EncodeLocation(c).members, "python_object") == Some(FromValue(c.location.pythonObject))
    ensures Lookup(EncodeLocation(c).members, "line") == Some(FromValue(c.location.line))
    ensures Lookup(EncodeLocation(c).members, "column") == Some(FromValue(c.location.column))
    ensures Lookup(EncodeLocation(c).members, "end_line") == Some(FromValue(c.location.endLine))
    ensures Lookup(EncodeLocation(c).members, "path") == Some(FromValue(c.location.path))
  {
    LocationFieldsValues(c.location);
    EncodeLocationKeepsAttributes(c, "module");
    EncodeLocationKeepsAttributes(c, "python_object");
    EncodeLocationKeepsAttributes(c, "line");
    EncodeLocationKeepsAttributes(c, "column");
    EncodeLocationKeepsAttributes(c, "end_line");
    EncodeLocationKeepsAttributes(c, "path");
  }
}

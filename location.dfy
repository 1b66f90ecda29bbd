/** Where a code smell occurs, read from the same flat record as the smell. */
module Locations {
  import opened Wrappers
  import opened Records

  /**
   * The six attributes of a Location, each the record value stored unchanged.
   * `moduleName` is the source's `module` attribute (a keyword in Dafny).
   */
  datatype Location = Location(
    moduleName: Value,
    pythonObject: Value,
    line: Value,
    column: Value,
    endLine: Value,
    path: Value)

  /** The record keys the constructor reads, in the order it reads them. */
  const LocationKeys: seq<string> := ["module", "obj", "line", "column", "endLine", "path"]

  /** The keys are checked in reading order, so the first absent one is reported. */
  lemma LocationKeysInOrder(data: Record)
    ensures FirstMissing(LocationKeys, data) ==
      if "module" !in data then Some("module")
      else if "obj" !in data then Some("obj")
      else if "line" !in data then Some("line")
      else if "column" !in data then Some("column")
      else if "endLine" !in data then Some("endLine")
      else if "path" !in data then Some("path")
      else None
  {
    FirstMissingCons("module", ["obj", "line", "column", "endLine", "path"], data);
    FirstMissingCons("obj", ["line", "column", "endLine", "path"], data);
    FirstMissingCons("line", ["column", "endLine", "path"], data);
    FirstMissingCons("column", ["endLine", "path"], data);
    FirstMissingCons("endLine", ["path"], data);
    FirstMissingCons("path", [], data);
  }

  /**
   * `Location(data)`: copies the six keys into the six attributes; the first
   * key missing in reading order raises a KeyError naming it.
   */
  function ParseLocation(data: Record): (r: Result<Location, Fault>)
    ensures r.Success? <==> "module" in data && "obj" in data && "line" in data &&
                            "column" in data && "endLine" in data && "path" in data
    ensures r.Success? ==> r.value.moduleName == data["module"] && r.value.pythonObject == data["obj"]
    ensures r.Success? ==> r.value.line == data["line"] && r.value.column == data["column"]
    ensures r.Success? ==> r.value.endLine == data["endLine"] && r.value.path == data["path"]
    ensures r.Failure? ==> r.error.MissingKey? && FirstMissing(LocationKeys, data) == Some(r.error.key)
  {
    LocationKeysInOrder(data);
    var moduleName :- Get(data, "module");
    var pythonObject :- Get(data, "obj");
    var line :- Get(data, "line");
    var column :- Get(data, "column");
    var endLine :- Get(data, "endLine");
    var path :- Get(data, "path");
    Success(Location(moduleName, pythonObject, line, column, endLine, path))
  }
}

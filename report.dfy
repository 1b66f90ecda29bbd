/**
 * The Report: every record converted to a CodeSmell (all or nothing),
 * sorted by severity, kept with the externally computed grade, and
 * grouped into runs of smells from the same file.
 */
module Reports {
  import opened Wrappers
  import opened Records
  import opened CodeSmells
  import opened StableSort

  /** The sort key of `convert_dict`: `lambda s: s.severity()`. */
  function SeverityOf(c: CodeSmell): (k: int)
    ensures 0 <= k <= 3
  {
    c.Severity()
  }

  /**
   * The list the loop of `convert_dict` builds with `convert`: every record
   * converted in input order, or the error of the first record that fails.
   */
  function ConvertEach<T>(records: seq<Record>, convert: Record -> Result<T, Fault>): (r: Result<seq<T>, Fault>)
    ensures r.Success? <==> forall i :: 0 <= i < |records| ==> convert(records[i]).Success?
    ensures r.Success? ==> |r.value| == |records|
    ensures r.Success? ==> forall i :: 0 <= i < |records| ==> convert(records[i]) == Success(r.value[i])
    ensures r.Failure? ==>
      exists i :: 0 <= i < |records| && convert(records[i]) == Failure(r.error) &&
                  forall j :: 0 <= j < i ==> convert(records[j]).Success?
  {
    if records == [] then Success([])
    else
      var n := |records| - 1;
      var init := ConvertEach(records[..n], convert);
      assert forall i :: 0 <= i < n ==> records[..n][i] == records[i];
      if init.Failure? then
        Failure(init.error)
      else
        var last := convert(records[n]);
        if last.Failure? then
          Failure(last.error)
        else
          Success(init.value + [last.value])
  }

  /** Every record converted to a CodeSmell, or the first record's error. */
  function ParseAll(records: seq<Record>): (r: Result<seq<CodeSmell>, Fault>)
    ensures r.Success? <==> forall i :: 0 <= i < |records| ==> ParseCodeSmell(records[i]).Success?
    ensures r.Success? ==> |r.value| == |records|
    ensures r.Success? ==> forall i :: 0 <= i < |records| ==> ParseCodeSmell(records[i]) == Success(r.value[i])
    ensures r.Failure? ==>
      exists i :: 0 <= i < |records| && ParseCodeSmell(records[i]) == Failure(r.error) &&
                  forall j :: 0 <= j < i ==> ParseCodeSmell(records[j]).Success?
  {
    ConvertEach(records, ParseCodeSmell)
  }

  /** Once a prefix fails to convert, the whole list fails with the same error. */
  lemma {:induction false} PrefixFailure<T>(records: seq<Record>, convert: Record -> Result<T, Fault>, n: nat)
    requires n <= |records|
    requires ConvertEach(records[..n], convert).Failure?
    ensures ConvertEach(records, convert) == ConvertEach(records[..n], convert)
    decreases |records| - n
  {
    if n < |records| {
      assert records[..n + 1][..n] == records[..n];
      PrefixFailure(records, convert, n + 1);
    } else {
      assert records[..n] == records;
    }
  }

  /** One more record: the prefix's list grows by its conversion, or the whole list fails with its error. */
  lemma ConvertStep<T>(records: seq<Record>, convert: Record -> Result<T, Fault>, i: nat, done: seq<T>)
    requires i < |records| && ConvertEach(records[..i], convert) == Success(done)
    ensures convert(records[i]).Success? ==> ConvertEach(records[..i + 1], convert) == Success(done + [convert(records[i]).value])
    ensures convert(records[i]).Failure? ==> ConvertEach(records, convert) == Failure(convert(records[i]).error)
  {
    assert records[..i + 1][..i] == records[..i];
    if convert(records[i]).Failure? {
      PrefixFailure(records, convert, i + 1);
    }
  }

  /**
   * `Report.convert_dict(json_content)`: append each converted record to a
   * list, stopping at the first failure, then sort the list by descending
   * severity.
   */
  method ConvertDict(records: seq<Record>) returns (r: Result<seq<CodeSmell>, Fault>)
    ensures r.Success? <==> ParseAll(records).Success?
    ensures r.Success? ==> r.value == SortDesc(ParseAll(records).value, SeverityOf)
    ensures r.Failure? ==> r.error == ParseAll(records).error
  {
    var ret: seq<CodeSmell> := [];
    var i := 0;
    while i < |records|
      invariant 0 <= i <= |records|
      invariant ParseAll(records[..i]) == Success(ret)
    {
      var smell := ParseCodeSmell(records[i]);
      ConvertStep(records, ParseCodeSmell, i, ret);
      if smell.Failure? {
        return Failure(smell.error);
      }
      ret := ret + [smell.value];
      i := i + 1;
    }
    assert records[..i] == records;
    return Success(SortDesc(ret, SeverityOf));
  }

  /** Smells differ only in severities 0..3, as the -1 fallback is never taken. */
  lemma SeverityKeyInRange()
    ensures forall c :: 0 <= SeverityOf(c) <= 3
  {
  }

  /** A report: the converted smells, sorted by severity, and the opaque grade. */
  datatype Report<G> = Report(codeSmells: seq<CodeSmell>, grade: G) {

    /** `group_by_file()`: the smells split into runs from the same file. */
    function GroupByFile(): (groups: seq<seq<CodeSmell>>)
      ensures Flatten(groups) == codeSmells
      ensures UniformGroups(groups) && SeparatedGroups(groups)
    {
      GroupByPath(codeSmells)
    }
  }

  /**
   * `Report(json_content, grade)`: all records convert or the construction
   * fails with the first failing record's error; on success the smells are
   * the converted records reordered by non-increasing severity, stably, and
   * the grade is stored unchanged.
   */
  method NewReport<G>(records: seq<Record>, grade: G) returns (r: Result<Report<G>, Fault>)
    ensures r.Success? <==> forall i :: 0 <= i < |records| ==> ParseCodeSmell(records[i]).Success?
    ensures r.Failure? ==> r.error == ParseAll(records).error
    ensures r.Success? ==> r.value.grade == grade
    ensures r.Success? ==> r.value.codeSmells == SortDesc(ParseAll(records).value, SeverityOf)
    ensures r.Success? ==> |r.value.codeSmells| == |records|
    ensures r.Success? ==> multiset(r.value.codeSmells) == multiset(ParseAll(records).value)
    ensures r.Success? ==> SortedDesc(r.value.codeSmells, SeverityOf)
    ensures r.Success? ==> forall k :: WithKey(r.value.codeSmells, SeverityOf, k) == WithKey(ParseAll(records).value, SeverityOf, k)
  {
    var smells := ConvertDict(records);
    if smells.Failure? {
      return Failure(smells.error);
    }
    var parsed := ParseAll(records).value;
    SortIsSorted(parsed, SeverityOf);
    SortPermutes(parsed, SeverityOf);
    forall k ensures WithKey(smells.value, SeverityOf, k) == WithKey(parsed, SeverityOf, k) {
      SortIsStable(parsed, SeverityOf, k);
    }
    return Success(Report(smells.value, grade));
  }

  /**
   * The smells of a report are its ERROR smells, then its WARNING, REFACTOR
   * and CONVENTION smells, each class in record order.
   */
  lemma ReportIsSeverityClasses(records: seq<Record>)
    requires ParseAll(records).Success?
    ensures SortDesc(ParseAll(records).value, SeverityOf) == Classes(ParseAll(records).value, SeverityOf)
  {
    SeverityKeyInRange();
    SortIsClasses(ParseAll(records).value, SeverityOf);
  }

  /** The file a smell belongs to: `location.path`. */
  function PathOf(c: CodeSmell): Value {
    c.location.path
  }

  /** The groups joined back into one list. */
  function Flatten(groups: seq<seq<CodeSmell>>): seq<CodeSmell> {
    if groups == [] then [] else groups[0] + Flatten(groups[1..])
  }

  /** Every group is non-empty and all its smells share one path. */
  predicate UniformGroups(groups: seq<seq<CodeSmell>>) {
    forall i :: 0 <= i < |groups| ==>
      groups[i] != [] && forall j :: 0 <= j < |groups[i]| ==> PathOf(groups[i][j]) == PathOf(groups[i][0])
  }

  /** Neighbouring groups have different paths. */
  predicate SeparatedGroups(groups: seq<seq<CodeSmell>>)
    requires UniformGroups(groups)
  {
    forall i :: 0 < i < |groups| ==> PathOf(groups[i - 1][0]) != PathOf(groups[i][0])
  }

  /**
   * `groupby(smells, key=path)`: maximal runs of adjacent smells with the
   * same path, in order. Smells of one file that are not adjacent land in
   * different groups.
   */
  function GroupByPath(s: seq<CodeSmell>): (groups: seq<seq<CodeSmell>>)
    ensures Flatten(groups) == s
    ensures UniformGroups(groups)
    ensures SeparatedGroups(groups)
    ensures s != [] ==> groups != [] && groups[0][0] == s[0]
  {
    if s == [] then []
    else
      var rest := GroupByPath(s[1..]);
      assert s == [s[0]] + s[1..];
      if rest != [] && PathOf(rest[0][0]) == PathOf(s[0]) then
        var merged := [[s[0]] + rest[0]] + rest[1..];
        assert Flatten(rest) == rest[0] + Flatten(rest[1..]);
        assert merged[1..] == rest[1..];
        merged
      else
        var added := [[s[0]]] + rest;
        assert added[1..] == rest;
        added
  }

  /** The number of adjacent pairs of smells whose paths differ. */
  function PathChanges(s: seq<CodeSmell>): nat {
    if |s| < 2 then 0
    else (if PathOf(s[0]) != PathOf(s[1]) then 1 else 0) + PathChanges(s[1..])
  }

  /** There is one group more than there are path changes between neighbours. */
  lemma {:induction false} GroupCount(s: seq<CodeSmell>)
    ensures |GroupByPath(s)| == if s == [] then 0 else PathChanges(s) + 1
  {
    if s != [] {
      GroupCount(s[1..]);
    }
  }

  /** Dropping the first group keeps a decomposition uniform and separated. */
  lemma GroupsTail(groups: seq<seq<CodeSmell>>)
    requires groups != [] && UniformGroups(groups) && SeparatedGroups(groups)
    ensures UniformGroups(groups[1..]) && SeparatedGroups(groups[1..])
    ensures Flatten(groups) == groups[0] + Flatten(groups[1..])
  {
    forall i | 0 <= i < |groups[1..]| ensures groups[1..][i] == groups[i + 1] { }
  }

  /** Dropping the first smell of a first group of two or more keeps a decomposition uniform and separated. */
  lemma GroupsShortened(groups: seq<seq<CodeSmell>>)
    requires groups != [] && |groups[0]| > 1 && UniformGroups(groups) && SeparatedGroups(groups)
    ensures var shorter := [groups[0][1..]] + groups[1..];
      UniformGroups(shorter) && SeparatedGroups(shorter) &&
      Flatten(shorter) == groups[0][1..] + Flatten(groups[1..]) &&
      PathOf(shorter[0][0]) == PathOf(groups[0][0])
  {
    var g, shorter := groups[0], [groups[0][1..]] + groups[1..];
    assert shorter[1..] == groups[1..];
    forall i | 1 <= i < |shorter| ensures shorter[i] == groups[i] { }
    forall j | 0 <= j < |g[1..]| ensures PathOf(g[1..][j]) == PathOf(g[0]) {
      assert g[1..][j] == g[j + 1];
    }
  }

  /** A smell whose path differs from the next group's starts a group of its own. */
  lemma StartsNewGroup(s: seq<CodeSmell>)
    requires s != []
    requires GroupByPath(s[1..]) != [] ==> PathOf(GroupByPath(s[1..])[0][0]) != PathOf(s[0])
    ensures GroupByPath(s) == [[s[0]]] + GroupByPath(s[1..])
  {
  }

  /** A smell whose path matches the next group's joins that group at its front. */
  lemma JoinsFirstGroup(s: seq<CodeSmell>)
    requires s != [] && GroupByPath(s[1..]) != []
    requires PathOf(GroupByPath(s[1..])[0][0]) == PathOf(s[0])
    ensures GroupByPath(s) == [[s[0]] + GroupByPath(s[1..])[0]] + GroupByPath(s[1..])[1..]
  {
  }

  /**
   * The grouping is the only way to cut `s` into non-empty single-path
   * groups whose neighbours differ in path.
   */
  lemma {:induction false} GroupingIsUnique(s: seq<CodeSmell>, groups: seq<seq<CodeSmell>>)
    requires Flatten(groups) == s
    requires UniformGroups(groups) && SeparatedGroups(groups)
    ensures groups == GroupByPath(s)
    decreases |s|
  {
    if groups != [] {
      var g, others := groups[0], groups[1..];
      GroupsTail(groups);
      assert g != [] && s[0] == g[0];
      if |g| == 1 {
        assert groups == [[s[0]]] + others by {
          assert g == [s[0]];
        }
        assert s[1..] == Flatten(others);
        GroupingIsUnique(s[1..], others);
        assert others != [] ==> PathOf(others[0][0]) != PathOf(s[0]) by {
          if others != [] {
            assert others[0] == groups[1];
          }
        }
        StartsNewGroup(s);
      } else {
        var shorter := [g[1..]] + others;
        assert groups == [[s[0]] + shorter[0]] + shorter[1..] by {
          assert shorter[0] == g[1..] && shorter[1..] == others;
          assert g == [s[0]] + g[1..];
        }
        GroupsShortened(groups);
        assert s[1..] == Flatten(shorter);
        GroupingIsUnique(s[1..], shorter);
        JoinsFirstGroup(s);
      }
    }
  }

  /** Paths A, A, B: the two smells of A form one group. */
  lemma AdjacentSamePathMerged(a1: CodeSmell, a2: CodeSmell, b: CodeSmell)
    requires PathOf(a1) == PathOf(a2) != PathOf(b)
    ensures GroupByPath([a1, a2, b]) == [[a1, a2], [b]]
  {
    var groups := [[a1, a2], [b]];
    assert Flatten(groups[1..]) == [b] + Flatten(groups[1..][1..]);
    GroupingIsUnique([a1, a2, b], groups);
  }

  /** Paths A, B, A: the grouping only merges neighbours, so A appears in two groups. */
  lemma SeparatedSamePathSplit(a1: CodeSmell, b: CodeSmell, a2: CodeSmell)
    requires PathOf(a1) == PathOf(a2) != PathOf(b)
    ensures GroupByPath([a1, b, a2]) == [[a1], [b], [a2]]
  {
    var groups := [[a1], [b], [a2]];
    assert Flatten(groups[2..]) == [a2] + Flatten(groups[2..][1..]);
    assert groups[1..][1..] == groups[2..];
    assert Flatten(groups[1..]) == [b, a2];
    GroupingIsUnique([a1, b, a2], groups);
  }
}

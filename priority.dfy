/**
 * The four linter message classes, their name-based lookup and the
 * severity rank used to order code smells.
 */
module Priorities {
  import opened Wrappers
  import opened Records

  /** The enum's members, in declaration order. Their display glyphs are not modelled. */
  datatype Priority = Error | Warning | Refactor | Convention

  /** Every member, in the order iterating over the enum yields them. */
  const Members: seq<Priority> := [Error, Warning, Refactor, Convention]

  /** Iterating over the enum visits every member. */
  lemma EveryMemberListed()
    ensures forall p :: p in Members
  {
    forall p ensures p in Members {
      match p
      case Error => assert Members[0] == p;
      case Warning => assert Members[1] == p;
      case Refactor => assert Members[2] == p;
      case Convention => assert Members[3] == p;
    }
  }

  /** The member's `name`, as the enum spells it. */
  function Name(p: Priority): string {
    match p
    case Error => "ERROR"
    case Warning => "WARNING"
    case Refactor => "REFACTOR"
    case Convention => "CONVENTION"
  }

  /** `str.lower` on one character, for the ASCII letters that enum names use. */
  function LowerChar(c: char): char {
    if 'A' <= c <= 'Z' then (c as int - 'A' as int + 'a' as int) as char else c
  }

  /** An ASCII upper-case letter. */
  predicate IsUpper(c: char) {
    'A' <= c <= 'Z'
  }

  /**
   * `str.lower`: no upper-case letter is left, and every character that was
   * not an upper-case letter is kept where it was.
   */
  function Lower(s: string): (r: string)
    ensures |r| == |s|
    ensures forall i :: 0 <= i < |r| ==> !IsUpper(r[i])
    ensures forall i :: 0 <= i < |s| && !IsUpper(s[i]) ==> r[i] == s[i]
    ensures forall i :: 0 <= i < |s| && IsUpper(s[i]) ==> r[i] as int == s[i] as int + ('a' as int - 'A' as int)
  {
    seq(|s|, i requires 0 <= i < |s| => LowerChar(s[i]))
  }

  /** Lower-casing a lower-cased string changes nothing. */
  lemma LowerIdempotent(s: string)
    ensures Lower(Lower(s)) == Lower(s)
  {
    var r := Lower(s);
    assert forall i :: 0 <= i < |r| ==> Lower(r)[i] == r[i];
  }

  /** `prio.name.lower()` */
  function LowerName(p: Priority): string {
    Lower(Name(p))
  }

  /** The lower-case names of the members: the only names the lookup accepts. */
  predicate KnownName(n: string) {
    n == "error" || n == "warning" || n == "refactor" || n == "convention"
  }

  lemma LowerError() ensures Lower("ERROR") == "error" { }

  lemma LowerWarning() ensures Lower("WARNING") == "warning" { }

  lemma LowerRefactor() ensures Lower("REFACTOR") == "refactor" { }

  lemma LowerConvention() ensures Lower("CONVENTION") == "convention" { }

  /** Each member's lower-case name is one of the four known names. */
  lemma KnownNameOf(p: Priority)
    ensures KnownName(LowerName(p))
  {
    match p
    case Error => LowerError();
    case Warning => LowerWarning();
    case Refactor => LowerRefactor();
    case Convention => LowerConvention();
  }

  /** Distinct members have distinct lower-case names (the four names differ in length). */
  lemma LowerNameInjective(p: Priority, q: Priority)
    ensures LowerName(p) == LowerName(q) ==> p == q
  {
  }

  /**
   * The dictionary comprehension over `ps`, built entry by entry in
   * iteration order (a later entry replaces an earlier one with the same key).
   */
  function TableOf(ps: seq<Priority>): (t: map<string, Priority>)
    ensures forall k :: k in t ==> t[k] in ps && LowerName(t[k]) == k
    ensures forall p :: p in ps ==> LowerName(p) in t
  {
    if ps == [] then map[]
    else
      var last := ps[|ps| - 1];
      var t := TableOf(ps[..|ps| - 1]);
      assert forall p :: p in ps[..|ps| - 1] ==> p in ps;
      assert forall p :: p in ps ==> p in ps[..|ps| - 1] || p == last;
      t[LowerName(last) := last]
  }

  /** The dictionary `{prio.name.lower(): prio for prio in Priority}`. */
  function Table(): (t: map<string, Priority>)
    ensures forall k :: k in t ==> LowerName(t[k]) == k
    ensures forall p :: p in Members ==> LowerName(p) in t
  {
    TableOf(Members)
  }

  /** Every member's lower-case name is a key of the table, and maps back to that member. */
  lemma TableHasEveryMember(p: Priority)
    ensures LowerName(p) in Table() && Table()[LowerName(p)] == p
  {
    EveryMemberListed();
    LowerNameInjective(Table()[LowerName(p)], p);
  }

  /** The table's keys are exactly the four lower-case names. */
  lemma TableKeys(k: string)
    ensures k in Table() <==> KnownName(k)
  {
    if k in Table() {
      KnownNameOf(Table()[k]);
    } else if k == "error" {
      LowerError();
      TableHasEveryMember(Error);
    } else if k == "warning" {
      LowerWarning();
      TableHasEveryMember(Warning);
    } else if k == "refactor" {
      LowerRefactor();
      TableHasEveryMember(Refactor);
    } else if k == "convention" {
      LowerConvention();
      TableHasEveryMember(Convention);
    }
  }

  /**
   * `Priority.get_priority(name)`: the member whose lower-case name is `name`;
   * a KeyError for anything else, including non-strings and upper-case names.
   */
  function GetPriority(name: Value): (r: Result<Priority, Fault>)
    ensures r.Success? <==> name.Str? && KnownName(name.s)
    ensures r.Success? ==> LowerName(r.value) == name.s
    ensures r.Failure? ==> r.error == UnknownPriority(name)
  {
    if name.Str? && name.s in Table() then
      TableKeys(name.s);
      Success(Table()[name.s])
    else
      if name.Str? then TableKeys(name.s); Failure(UnknownPriority(name))
      else Failure(UnknownPriority(name))
  }

  /** Looking a member up by its own lower-case name gives that member back. */
  lemma GetPriorityRoundTrip(p: Priority)
    ensures GetPriority(Str(LowerName(p))) == Success(p)
  {
    KnownNameOf(p);
    LowerNameInjective(GetPriority(Str(LowerName(p))).value, p);
  }

  /** The lookup is case-sensitive: the enum's own upper-case names are rejected. */
  lemma UpperCaseNamesRejected(p: Priority)
    ensures GetPriority(Str(Name(p))).Failure?
  {
    var n := Name(p);
    assert 'A' <= n[0] <= 'Z';
    assert n != "error" by { assert "error"[0] == 'e'; }
    assert n != "warning" by { assert "warning"[0] == 'w'; }
    assert n != "refactor" by { assert "refactor"[0] == 'r'; }
    assert n != "convention" by { assert "convention"[0] == 'c'; }
  }

  /**
   * The linter also reports `fatal` and `info` messages; their names are not
   * members, so the lookup rejects them.
   */
  lemma OtherLinterTypesRejected()
    ensures GetPriority(Str("fatal")) == Failure(UnknownPriority(Str("fatal")))
    ensures GetPriority(Str("info")) == Failure(UnknownPriority(Str("info")))
  {
    assert "fatal"[0] == 'f' && |"info"| == 4;
  }

  /** Severity order, lowest first: `[CONVENTION, REFACTOR, WARNING, ERROR]`. */
  const Ranked: seq<Priority> := [Convention, Refactor, Warning, Error]

  /** `list.index`: the position of the first occurrence of `p` in `s`. */
  function IndexOf(s: seq<Priority>, p: Priority): (i: nat)
    requires p in s
    ensures i < |s| && s[i] == p
    ensures forall j :: 0 <= j < i ==> s[j] != p
  {
    if s[0] == p then 0 else 1 + IndexOf(s[1..], p)
  }

  /**
   * `CodeSmell.severity`: the member's position in Ranked, or -1 for a
   * member outside the list.
   */
  function Severity(p: Priority): (r: int)
    ensures r == -1 <==> p !in Ranked
    ensures r != -1 ==> 0 <= r < |Ranked| && Ranked[r] == p
  {
    if p in Ranked then IndexOf(Ranked, p) else -1
  }

  /**
   * Every member is ranked, so the -1 fallback is never taken: the severity
   * is a valid index of Ranked and points back at the member.
   */
  lemma SeverityIsRank(p: Priority)
    ensures 0 <= Severity(p) < |Ranked|
    ensures Ranked[Severity(p)] == p
  {
    assert Ranked[0] == Convention && Ranked[1] == Refactor && Ranked[2] == Warning && Ranked[3] == Error;
    assert p in Ranked;
  }

  /** The rank table itself: CONVENTION 0, REFACTOR 1, WARNING 2, ERROR 3. */
  lemma SeverityTable()
    ensures Severity(Convention) == 0
    ensures Severity(Refactor) == 1
    ensures Severity(Warning) == 2
    ensures Severity(Error) == 3
  {
    SeverityIsRank(Convention);
    SeverityIsRank(Refactor);
    SeverityIsRank(Warning);
    SeverityIsRank(Error);
  }

  /** Distinct members have distinct severities. */
  lemma SeverityInjective(p: Priority, q: Priority)
    ensures Severity(p) == Severity(q) ==> p == q
  {
    SeverityIsRank(p);
    SeverityIsRank(q);
  }
}

/** Ref names: the full name git uses and the kind + short name the events carry. */
module Refs {
  const HEADS := "refs/heads/"
  const TAGS := "refs/tags/"

  /** A full ref name, split at its namespace. `Other` is any name outside both. */
  datatype Ref = Branch(name: string) | Tag(name: string) | Other(name: string) {
    /** What override patterns are matched against. */
    function ShortName(): string { name }

    predicate WellFormed() {
      Other? ==> !(HEADS <= name) && !(TAGS <= name)
    }
  }

  function FullName(r: Ref): string {
    match r
    case Branch(n) => HEADS + n
    case Tag(n) => TAGS + n
    case Other(n) => n
  }

  function Parse(s: string): (r: Ref)
    ensures r.WellFormed()
  {
    if HEADS <= s then Branch(s[|HEADS|..])
    else if TAGS <= s then Tag(s[|TAGS|..])
    else Other(s)
  }

  /** Splitting a full name loses nothing, so the two notations are interchangeable. */
  lemma ParseFullName(r: Ref)
    requires r.WellFormed()
    ensures Parse(FullName(r)) == r
  {
    if r.Tag? {
      assert FullName(r)[5] == 't' && HEADS[5] == 'h';
      assert FullName(r)[|TAGS|..] == r.name;
    } else if r.Branch? {
      assert FullName(r)[|HEADS|..] == r.name;
    }
  }

  lemma FullNameParse(s: string)
    ensures FullName(Parse(s)) == s
  {
  }

  lemma FullNameInjective(a: Ref, b: Ref)
    requires a.WellFormed() && b.WellFormed() && FullName(a) == FullName(b)
    ensures a == b
  {
    ParseFullName(a);
    ParseFullName(b);
  }

  /** The kind label "tag" selects the tag namespace, anything else the branch one. */
  function FromKind(refType: string, refName: string): (r: Ref)
    ensures r.WellFormed() && r.ShortName() == refName
  {
    if refType == "tag" then Tag(refName) else Branch(refName)
  }
}

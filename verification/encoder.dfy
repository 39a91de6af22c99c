/**
  The feature encoder: one answer set becomes the 24-column numeric row the
  classifier was trained on. Column 0 is the age; every categorical question
  is a one-hot group built from string-equality tests against the literal
  option names, so a value that matches no literal leaves its group all zero.
 */
module Encoder {
  import opened Survey

  /** Number of columns the classifier expects. */
  const Width: nat := 24

  /** Python's `float(b)` for a boolean: 1.0 when true, 0.0 when false. */
  function Indicator(b: bool): real {
    if b then 1.0 else 0.0
  }

  /** The row, written column by column exactly as the form builds it. */
  function Encode(a: Answers): (row: seq<real>)
    ensures |row| == Width
    ensures row[0] == a.age as real
  {
    [ a.age as real,
      Indicator(a.gender == "Female"), Indicator(a.gender == "Male"), Indicator(a.gender == "Other"),
      Indicator(a.familyHistory == "No"), Indicator(a.familyHistory == "Yes"),
      Indicator(a.workInterfere == "Never"), Indicator(a.workInterfere == "Often"),
      Indicator(a.workInterfere == "Rarely"), Indicator(a.workInterfere == "Sometimes"),
      Indicator(a.remoteWork == "No"), Indicator(a.remoteWork == "Yes"),
      Indicator(a.benefits == "Don't know"), Indicator(a.benefits == "No"),
      Indicator(a.benefits == "Yes"), Indicator(a.careOptions == "No"),
      Indicator(a.careOptions == "Not sure"), Indicator(a.careOptions == "Yes"),
      Indicator(a.supervisor == "No"), Indicator(a.supervisor == "Some of them"),
      Indicator(a.supervisor == "Yes"), Indicator(a.mentalVsPhysical == "No"),
      Indicator(a.mentalVsPhysical == "Don't know"), Indicator(a.mentalVsPhysical == "Yes")
    ]
  }

  // ---------------------------------------------------------------------
  // The column layout, stated independently of Encode
  // ---------------------------------------------------------------------

  /** The option each column of a group tests for, in column order. */
  function Columns(f: Field): seq<string> {
    match f
    case Gender => ["Female", "Male", "Other"]
    case FamilyHistory => ["No", "Yes"]
    case WorkInterfere => ["Never", "Often", "Rarely", "Sometimes"]
    case RemoteWork => ["No", "Yes"]
    case Benefits => ["Don't know", "No", "Yes"]
    case CareOptions => ["No", "Not sure", "Yes"]
    case Supervisor => ["No", "Some of them", "Yes"]
    case MentalVsPhysical => ["No", "Don't know", "Yes"]
  }

  /** First column of a group. */
  function Offset(f: Field): nat {
    match f
    case Gender => 1
    case FamilyHistory => 4
    case WorkInterfere => 6
    case RemoteWork => 10
    case Benefits => 12
    case CareOptions => 15
    case Supervisor => 18
    case MentalVsPhysical => 21
  }

  /** One past the last column of a group. */
  function End(f: Field): nat {
    Offset(f) + |Columns(f)|
  }

  /** The columns of a row that belong to one group. */
  function Slice(row: seq<real>, f: Field): seq<real>
    requires |row| == Width
  {
    row[Offset(f)..End(f)]
  }

  /** A group encoded by equality against each of its column names. */
  function OneHot(v: string, cols: seq<string>): seq<real> {
    seq(|cols|, i requires 0 <= i < |cols| => Indicator(v == cols[i]))
  }

  /** The row as the age followed by the groups of `fs`, in that order. */
  function Groups(a: Answers, fs: seq<Field>): seq<real> {
    if |fs| == 0 then [] else OneHot(Get(a, fs[0]), Columns(fs[0])) + Groups(a, fs[1..])
  }

  predicate Distinct(cols: seq<string>) {
    forall i, j :: 0 <= i < j < |cols| ==> cols[i] != cols[j]
  }

  /** Position of a listed value among the columns. */
  function IndexOf(cols: seq<string>, v: string): (k: nat)
    requires v in cols
    ensures k < |cols| && cols[k] == v
    ensures forall j :: 0 <= j < k ==> cols[j] != v
  {
    if cols[0] == v then 0 else 1 + IndexOf(cols[1..], v)
  }

  /** The sum of a group's entries. */
  function Sum(g: seq<real>): real {
    if |g| == 0 then 0.0 else g[0] + Sum(g[1..])
  }

  /** `g` has 1.0 at position `k` and 0.0 everywhere else. */
  predicate OneHotAt(g: seq<real>, k: int) {
    && 0 <= k < |g|
    && g[k] == 1.0
    && forall j :: 0 <= j < |g| && j != k ==> g[j] == 0.0
  }

  predicate IsOneHot(g: seq<real>) {
    exists k :: 0 <= k < |g| && OneHotAt(g, k)
  }

  predicate AllZero(g: seq<real>) {
    forall j :: 0 <= j < |g| ==> g[j] == 0.0
  }

  // ---------------------------------------------------------------------
  // Layout lemmas
  // ---------------------------------------------------------------------

  /** Three consecutive equality tests form the OneHot group of their column names. */
  lemma GroupOfThree(row: seq<real>, off: nat, v: string, c0: string, c1: string, c2: string)
    requires off + 3 <= |row|
    requires row[off] == Indicator(v == c0) && row[off + 1] == Indicator(v == c1)
    requires row[off + 2] == Indicator(v == c2)
    ensures row[off..off + 3] == OneHot(v, [c0, c1, c2])
  {
  }

  // One lemma per group keeps each proof obligation small; the gender group,
  // deepest in the row literal, needs GroupOfThree.

  lemma GenderGroup(a: Answers)
    ensures Slice(Encode(a), Gender) == OneHot(a.gender, Columns(Gender))
  {
    GroupOfThree(Encode(a), 1, a.gender, "Female", "Male", "Other");
  }

  lemma FamilyHistoryGroup(a: Answers)
    ensures Slice(Encode(a), FamilyHistory) == OneHot(a.familyHistory, Columns(FamilyHistory))
  {
  }

  lemma WorkInterfereGroup(a: Answers)
    ensures Slice(Encode(a), WorkInterfere) == OneHot(a.workInterfere, Columns(WorkInterfere))
  {
  }

  lemma RemoteWorkGroup(a: Answers)
    ensures Slice(Encode(a), RemoteWork) == OneHot(a.remoteWork, Columns(RemoteWork))
  {
  }

  lemma BenefitsGroup(a: Answers)
    ensures Slice(Encode(a), Benefits) == OneHot(a.benefits, Columns(Benefits))
  {
  }

  lemma CareOptionsGroup(a: Answers)
    ensures Slice(Encode(a), CareOptions) == OneHot(a.careOptions, Columns(CareOptions))
  {
  }

  lemma SupervisorGroup(a: Answers)
    ensures Slice(Encode(a), Supervisor) == OneHot(a.supervisor, Columns(Supervisor))
  {
  }

  lemma MentalVsPhysicalGroup(a: Answers)
    ensures Slice(Encode(a), MentalVsPhysical) == OneHot(a.mentalVsPhysical, Columns(MentalVsPhysical))
  {
  }

  /** Every group of the row is the equality encoding of that question's answer against its columns. */
  lemma EncodeGroup(a: Answers, f: Field)
    ensures Slice(Encode(a), f) == OneHot(Get(a, f), Columns(f))
  {
    match f
    case Gender => GenderGroup(a);
    case FamilyHistory => FamilyHistoryGroup(a);
    case WorkInterfere => WorkInterfereGroup(a);
    case RemoteWork => RemoteWorkGroup(a);
    case Benefits => BenefitsGroup(a);
    case CareOptions => CareOptionsGroup(a);
    case Supervisor => SupervisorGroup(a);
    case MentalVsPhysical => MentalVsPhysicalGroup(a);
  }

  /** The groups of `fs` occupy consecutive columns from `off` up to the end of the row. */
  predicate LaidOutFrom(fs: seq<Field>, off: nat) {
    if |fs| == 0 then off == Width else Offset(fs[0]) == off && LaidOutFrom(fs[1..], End(fs[0]))
  }

  /** A row whose every group encodes `a` holds, from `off` onward, the groups of `fs`. */
  lemma {:induction false} GroupsSuffix(a: Answers, row: seq<real>, fs: seq<Field>, off: nat)
    requires |row| == Width
    requires forall f: Field :: Slice(row, f) == OneHot(Get(a, f), Columns(f))
    requires LaidOutFrom(fs, off)
    ensures off <= Width && Groups(a, fs) == row[off..]
  {
    if |fs| > 0 {
      var f := fs[0];
      GroupsSuffix(a, row, fs[1..], End(f));
      assert row[off..] == Slice(row, f) + row[End(f)..];
    }
  }

  /**
    The groups follow one another in Fields order after the age column, with
    no gap or overlap, ending at the last column; no group names a value twice.
   */
  lemma LayoutTiles()
    ensures LaidOutFrom(Fields, 1)
    ensures forall f: Field :: Distinct(Columns(f))
  {
    var fs := Fields;
    assert LaidOutFrom(fs[8..], 24);
    assert LaidOutFrom(fs[7..], 21);
    assert LaidOutFrom(fs[6..], 18);
    assert LaidOutFrom(fs[5..], 15);
    assert LaidOutFrom(fs[4..], 12);
    assert LaidOutFrom(fs[3..], 10);
    assert LaidOutFrom(fs[2..], 6);
    assert LaidOutFrom(fs[1..], 4);
  }

  /** Encode is the age followed by the one-hot groups in Fields order. */
  lemma EncodeFollowsLayout(a: Answers)
    ensures Encode(a) == [a.age as real] + Groups(a, Fields)
  {
    forall f: Field ensures Slice(Encode(a), f) == OneHot(Get(a, f), Columns(f)) {
      EncodeGroup(a, f);
    }
    LayoutTiles();
    GroupsSuffix(a, Encode(a), Fields, 1);
    assert Encode(a) == Encode(a)[..1] + Encode(a)[1..];
  }
}

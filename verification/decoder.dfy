/**
  Reading an answer set back out of a row. The encoder has no decoder of its
  own; this one is the witness that the row loses nothing: it inverts Encode on
  every form answer, Encode inverts it on every well-formed row, and hence two
  different form answers never share a row.
 */
module Decoder {
  import opened Options
  import opened Survey
  import opened Encoder
  import opened Groups

  /** Position of the first 1.0 in a group, if there is one. */
  function FirstOne(g: seq<real>): (r: Option<nat>)
    ensures r.Some? ==> r.value < |g| && g[r.value] == 1.0
    ensures r.Some? ==> forall j :: 0 <= j < r.value ==> g[j] != 1.0
    ensures r.None? ==> forall j :: 0 <= j < |g| ==> g[j] != 1.0
  {
    if |g| == 0 then None
    else if g[0] == 1.0 then Some(0)
    else match FirstOne(g[1..])
      case None => None
      case Some(k) => Some(k + 1)
  }

  /** The value named by a group's lit column. */
  function DecodeGroup(g: seq<real>, cols: seq<string>): (r: Option<string>)
    requires |g| == |cols|
    ensures r.Some? ==> r.value in cols
    ensures r.None? <==> forall j :: 0 <= j < |g| ==> g[j] != 1.0
  {
    match FirstOne(g)
    case None => None
    case Some(k) => Some(cols[k])
  }

  function DecodeField(row: seq<real>, f: Field): (r: Option<string>)
    requires |row| == Width
    ensures r.Some? ==> r.value in Columns(f)
  {
    DecodeGroup(Slice(row, f), Columns(f))
  }

  /** The answer set a row encodes: None if the row has the wrong width or a group with no 1.0. */
  function Decode(row: seq<real>): (r: Option<Answers>)
    ensures r.Some? ==> |row| == Width && r.value.age == row[0].Floor
  {
    if |row| != Width then None
    else
      var gender :- DecodeField(row, Gender);
      var familyHistory :- DecodeField(row, FamilyHistory);
      var workInterfere :- DecodeField(row, WorkInterfere);
      var remoteWork :- DecodeField(row, RemoteWork);
      var benefits :- DecodeField(row, Benefits);
      var careOptions :- DecodeField(row, CareOptions);
      var supervisor :- DecodeField(row, Supervisor);
      var mentalVsPhysical :- DecodeField(row, MentalVsPhysical);
      Some(Answers(row[0].Floor, gender, familyHistory, workInterfere, remoteWork,
                   benefits, careOptions, supervisor, mentalVsPhysical))
  }

  /** A row the encoder can produce from listed answers: the right width, a whole-number age and one-hot groups. */
  predicate WellFormedRow(row: seq<real>) {
    && |row| == Width
    && row[0] == row[0].Floor as real
    && forall f: Field :: IsOneHot(Slice(row, f))
  }

  // ---------------------------------------------------------------------
  // One group
  // ---------------------------------------------------------------------

  /** Decoding the equality encoding of a listed value gives the value back. */
  lemma DecodeOneHot(v: string, cols: seq<string>)
    requires v in cols && Distinct(cols)
    ensures DecodeGroup(OneHot(v, cols), cols) == Some(v)
  {
    var g := OneHot(v, cols);
    var k := IndexOf(cols, v);
    ListedValueIsOneHot(v, cols);
    var r := FirstOne(g);
    assert r.Some? by { assert g[k] == 1.0; }
    assert r.value == k;
  }

  /** Encoding the decoded value of a one-hot group gives the group back. */
  lemma OneHotOfDecoded(g: seq<real>, cols: seq<string>)
    requires |g| == |cols| && Distinct(cols) && IsOneHot(g)
    ensures DecodeGroup(g, cols).Some?
    ensures OneHot(DecodeGroup(g, cols).value, cols) == g
  {
    var k :| 0 <= k < |g| && OneHotAt(g, k);
    assert FirstOne(g).Some? by { assert g[k] == 1.0; }
    assert FirstOne(g).value == k;
    var h := OneHot(cols[k], cols);
    forall j | 0 <= j < |g| ensures h[j] == g[j] {
      if j != k {
        assert cols[j] != cols[k];
      }
    }
  }

  // ---------------------------------------------------------------------
  // Whole rows
  // ---------------------------------------------------------------------

  /** A full-width row whose age column and groups each decode to `a`'s answers decodes to `a`. */
  lemma DecodeByFields(row: seq<real>, a: Answers)
    requires |row| == Width && row[0].Floor == a.age
    requires forall f: Field :: DecodeField(row, f) == Some(Get(a, f))
    ensures Decode(row) == Some(a)
  {
    assert DecodeField(row, Gender) == Some(a.gender);
    assert DecodeField(row, FamilyHistory) == Some(a.familyHistory);
    assert DecodeField(row, WorkInterfere) == Some(a.workInterfere);
    assert DecodeField(row, RemoteWork) == Some(a.remoteWork);
    assert DecodeField(row, Benefits) == Some(a.benefits);
    assert DecodeField(row, CareOptions) == Some(a.careOptions);
    assert DecodeField(row, Supervisor) == Some(a.supervisor);
    assert DecodeField(row, MentalVsPhysical) == Some(a.mentalVsPhysical);
  }

  /** Every answer set whose answers are all listed can be read back from its row. */
  lemma DecodeEncode(a: Answers)
    requires forall f: Field :: Get(a, f) in Columns(f)
    ensures Decode(Encode(a)) == Some(a)
  {
    var row := Encode(a);
    LayoutTiles();
    forall f: Field ensures DecodeField(row, f) == Some(Get(a, f)) {
      EncodeGroup(a, f);
      DecodeOneHot(Get(a, f), Columns(f));
    }
    DecodeByFields(row, a);
  }

  /** Two rows of full width that agree on the age column and on every group are equal. */
  lemma RowsAgreeingOnGroups(r1: seq<real>, r2: seq<real>)
    requires |r1| == Width && |r2| == Width && r1[0] == r2[0]
    requires forall f: Field :: Slice(r1, f) == Slice(r2, f)
    ensures r1 == r2
  {
    forall i | 0 <= i < Width ensures r1[i] == r2[i] {
      if i > 0 {
        var f := FieldOfColumn(i);
        assert r1[i] == Slice(r1, f)[i - Offset(f)];
        assert r2[i] == Slice(r2, f)[i - Offset(f)];
      }
    }
  }

  /** The group a categorical column belongs to. */
  function FieldOfColumn(i: int): (f: Field)
    requires 0 < i < Width
    ensures Offset(f) <= i < End(f)
  {
    if i < 4 then Gender
    else if i < 6 then FamilyHistory
    else if i < 10 then WorkInterfere
    else if i < 12 then RemoteWork
    else if i < 15 then Benefits
    else if i < 18 then CareOptions
    else if i < 21 then Supervisor
    else MentalVsPhysical
  }

  /** A full-width row whose every group decodes yields the answer set made of those values. */
  lemma DecodeSucceeds(row: seq<real>)
    requires |row| == Width
    requires forall f: Field :: DecodeField(row, f).Some?
    ensures Decode(row).Some?
    ensures Decode(row).value.age == row[0].Floor
    ensures forall f: Field :: Get(Decode(row).value, f) == DecodeField(row, f).value
  {
    var a := Answers(row[0].Floor,
      DecodeField(row, Gender).value, DecodeField(row, FamilyHistory).value,
      DecodeField(row, WorkInterfere).value, DecodeField(row, RemoteWork).value,
      DecodeField(row, Benefits).value, DecodeField(row, CareOptions).value,
      DecodeField(row, Supervisor).value, DecodeField(row, MentalVsPhysical).value);
    forall f: Field ensures DecodeField(row, f) == Some(Get(a, f)) {
      match f
      case Gender =>
      case FamilyHistory =>
      case WorkInterfere =>
      case RemoteWork =>
      case Benefits =>
      case CareOptions =>
      case Supervisor =>
      case MentalVsPhysical =>
    }
    DecodeByFields(row, a);
  }

  /** Every well-formed row is the encoding of the answer set decoded from it. */
  lemma EncodeDecode(row: seq<real>)
    requires WellFormedRow(row)
    ensures Decode(row).Some?
    ensures Encode(Decode(row).value) == row
  {
    LayoutTiles();
    forall f: Field ensures DecodeField(row, f).Some? && OneHot(DecodeField(row, f).value, Columns(f)) == Slice(row, f) {
      OneHotOfDecoded(Slice(row, f), Columns(f));
    }
    DecodeSucceeds(row);
    var a := Decode(row).value;
    forall f: Field ensures Slice(Encode(a), f) == Slice(row, f) {
      EncodeGroup(a, f);
    }
    RowsAgreeingOnGroups(Encode(a), row);
  }

  /** Every row built from a form answer is well formed, with the age column inside the age input's range. */
  lemma FormRowsAreWellFormed(a: Answers)
    requires FromForm(a)
    ensures WellFormedRow(Encode(a))
    ensures MinAge as real <= Encode(a)[0] <= MaxAge as real
  {
    forall f: Field ensures IsOneHot(Slice(Encode(a), f)) {
      FormAnswersEncodeOneHot(a, f);
    }
  }

  /** Different form answers give different rows. */
  lemma EncodeInjective(a: Answers, b: Answers)
    requires FromForm(a) && FromForm(b)
    requires Encode(a) == Encode(b)
    ensures a == b
  {
    FormAnswersAreListed(a);
    FormAnswersAreListed(b);
    DecodeEncode(a);
    DecodeEncode(b);
  }
}

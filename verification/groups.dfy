/**
  What the encoder guarantees about each categorical group of the row:
  a listed answer lights exactly its own column, an unlisted one lights none,
  and which column lights depends on the answer's value, never on the order
  the form displays the options in.
 */
module Groups {
  import opened Survey
  import opened Encoder

  // ---------------------------------------------------------------------
  // Sums of groups
  // ---------------------------------------------------------------------

  lemma {:induction false} SumOfZeros(g: seq<real>)
    requires AllZero(g)
    ensures Sum(g) == 0.0
  {
    if |g| > 0 {
      SumOfZeros(g[1..]);
    }
  }

  lemma {:induction false} SumOfOneHot(g: seq<real>, k: int)
    requires OneHotAt(g, k)
    ensures Sum(g) == 1.0
  {
    if k == 0 {
      SumOfZeros(g[1..]);
    } else {
      SumOfOneHot(g[1..], k - 1);
    }
  }

  // ---------------------------------------------------------------------
  // The equality encoding of one group
  // ---------------------------------------------------------------------

  /** A value among the (distinct) column names lights its own column only, so the group sums to 1. */
  lemma ListedValueIsOneHot(v: string, cols: seq<string>)
    requires v in cols && Distinct(cols)
    ensures OneHotAt(OneHot(v, cols), IndexOf(cols, v))
    ensures Sum(OneHot(v, cols)) == 1.0
  {
    SumOfOneHot(OneHot(v, cols), IndexOf(cols, v));
  }

  /** A value that is none of the column names leaves the whole group at 0.0. */
  lemma UnlistedValueIsZero(v: string, cols: seq<string>)
    requires v !in cols
    ensures AllZero(OneHot(v, cols))
    ensures Sum(OneHot(v, cols)) == 0.0
  {
    SumOfZeros(OneHot(v, cols));
  }

  // ---------------------------------------------------------------------
  // The same facts about the encoded row
  // ---------------------------------------------------------------------

  /** An answer among its question's columns gives a group with one 1.0, at the answer's column. */
  lemma GroupIsOneHot(a: Answers, f: Field)
    requires Get(a, f) in Columns(f)
    ensures OneHotAt(Slice(Encode(a), f), IndexOf(Columns(f), Get(a, f)))
    ensures Sum(Slice(Encode(a), f)) == 1.0
  {
    EncodeGroup(a, f);
    LayoutTiles();
    ListedValueIsOneHot(Get(a, f), Columns(f));
  }

  /** The encoder does not validate: an answer outside the columns gives an all-zero group, not an error. */
  lemma UnlistedAnswerGivesZeroGroup(a: Answers, f: Field)
    requires Get(a, f) !in Columns(f)
    ensures AllZero(Slice(Encode(a), f))
    ensures Sum(Slice(Encode(a), f)) == 0.0
  {
    EncodeGroup(a, f);
    UnlistedValueIsZero(Get(a, f), Columns(f));
  }

  /** Column k of a group is 1.0 exactly when the answer equals that column's name, and 0.0 otherwise. */
  lemma ColumnMeaning(a: Answers, f: Field, k: int)
    requires 0 <= k < |Columns(f)|
    ensures Encode(a)[Offset(f) + k] == 1.0 <==> Get(a, f) == Columns(f)[k]
    ensures Encode(a)[Offset(f) + k] == 0.0 <==> Get(a, f) != Columns(f)[k]
  {
    EncodeGroup(a, f);
    assert Encode(a)[Offset(f) + k] == Slice(Encode(a), f)[k];
  }

  // ---------------------------------------------------------------------
  // Display order versus column order
  // ---------------------------------------------------------------------

  /** Each select box offers exactly the values its group has columns for, possibly in another order. */
  lemma MenuMatchesColumns(f: Field)
    ensures multiset(Menu(f)) == multiset(Columns(f))
  {
    match f
    case Gender =>
    case FamilyHistory =>
    case WorkInterfere =>
    case RemoteWork =>
    case Benefits =>
    case CareOptions =>
      assert Menu(f) == [Columns(f)[1], Columns(f)[2], Columns(f)[0]];
    case Supervisor =>
    case MentalVsPhysical =>
      assert Menu(f) == [Columns(f)[1], Columns(f)[0], Columns(f)[2]];
  }

  /** Every answer the form can produce is one of its group's column names. */
  lemma FormAnswersAreListed(a: Answers)
    requires FromForm(a)
    ensures forall f: Field :: Get(a, f) in Columns(f)
  {
    forall f: Field ensures Get(a, f) in Columns(f) {
      MenuMatchesColumns(f);
      assert Get(a, f) in multiset(Menu(f));
    }
  }

  /**
    For a form answer, every group of the row is one-hot and sums to 1, and the
    lit column is the one named by the answer, whatever its position in the menu.
   */
  lemma FormAnswersEncodeOneHot(a: Answers, f: Field)
    requires FromForm(a)
    ensures Get(a, f) in Columns(f)
    ensures IsOneHot(Slice(Encode(a), f))
    ensures Sum(Slice(Encode(a), f)) == 1.0
    ensures Encode(a)[Offset(f) + IndexOf(Columns(f), Get(a, f))] == 1.0
  {
    FormAnswersAreListed(a);
    GroupIsOneHot(a, f);
    assert Encode(a)[Offset(f) + IndexOf(Columns(f), Get(a, f))]
        == Slice(Encode(a), f)[IndexOf(Columns(f), Get(a, f))];
  }

  /**
    Two select boxes list their options in an order other than the columns':
    the first option shown for care options and for mental-versus-physical
    health lands in the group's middle column, not its first.
   */
  lemma DisplayOrderIsNotColumnOrder()
    ensures Menu(CareOptions) != Columns(CareOptions)
    ensures Menu(CareOptions)[0] == "Not sure"
    ensures Offset(CareOptions) + IndexOf(Columns(CareOptions), "Not sure") == 16
    ensures Menu(MentalVsPhysical) != Columns(MentalVsPhysical)
    ensures Menu(MentalVsPhysical)[0] == "Don't know"
    ensures Offset(MentalVsPhysical) + IndexOf(Columns(MentalVsPhysical), "Don't know") == 22
  {
    assert Menu(CareOptions)[0] != Columns(CareOptions)[0];
    assert Menu(MentalVsPhysical)[0] != Columns(MentalVsPhysical)[0];
  }

  /** The worked example: a 30-year-old male answering No, Sometimes, No, then Yes to the rest. */
  lemma WorkedExample()
    ensures Encode(Answers(30, "Male", "No", "Sometimes", "No", "Yes", "Yes", "Yes", "Yes"))
         == [30.0,
             0.0, 1.0, 0.0,
             1.0, 0.0,
             0.0, 0.0, 0.0, 1.0,
             1.0, 0.0,
             0.0, 0.0, 1.0,
             0.0, 0.0, 1.0,
             0.0, 0.0, 1.0,
             0.0, 0.0, 1.0]
  {
  }
}

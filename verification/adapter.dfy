/**
  Invoking the trained classifier on one answer set and reading its output.
  The classifier is opaque: it is given as two total functions on batches,
  one returning a class per row and one returning a row of class
  probabilities per row, both loaded once and never changed.
 */
module Adapter {
  import opened Survey
  import opened Encoder
  import opened Batch

  /** The two messages the form can show. */
  datatype Label = Unlikely | Likely

  /** The loaded classifier: class prediction and class-probability estimation on a batch of rows. */
  datatype Classifier = Classifier(
    predict: seq<seq<real>> -> seq<int>,
    predictProba: seq<seq<real>> -> seq<seq<real>>)

  /** What the form reports: the label and the two probabilities it prints. */
  datatype Assessment = Assessment(outcome: Label, unlikely: real, likely: real)

  /** The reading of a predicted class: 0 is Unlikely, every other class Likely. */
  function LabelOf(c: int): Label {
    if c == 0 then Unlikely else Likely
  }

  /** The class a binary classifier uses for each label. */
  function ClassOf(l: Label): int {
    match l
    case Unlikely => 0
    case Likely => 1
  }

  /** On the classes of a binary classifier, LabelOf and ClassOf are inverse to each other. */
  lemma LabelClassRoundTrip(l: Label, c: int)
    ensures LabelOf(ClassOf(l)) == l
    ensures c == 0 || c == 1 ==> ClassOf(LabelOf(c)) == c
    ensures c != 0 ==> LabelOf(c) == Likely
  {
  }

  /** The single-row batch submitted for one answer set. */
  function InputBatch(a: Answers): (b: seq<seq<real>>)
    ensures |b| == 1 && |b[0]| == Width
    ensures b == [Encode(a)]
  {
    SingleRow(Encode(a));
    Reshape(Encode(a), 1)
  }

  /** The classifier gives at least one class and one row of at least two probabilities for `batch`. */
  predicate Responds(m: Classifier, batch: seq<seq<real>>) {
    && |m.predict(batch)| >= 1
    && |m.predictProba(batch)| >= 1
    && |m.predictProba(batch)[0]| >= 2
  }

  /** Reading the first row's class and the first row's two probability columns. */
  function Interpret(prediction: seq<int>, probabilities: seq<seq<real>>): (r: Assessment)
    requires |prediction| >= 1 && |probabilities| >= 1 && |probabilities[0]| >= 2
    ensures r.outcome == Unlikely <==> prediction[0] == 0
    ensures r.unlikely == probabilities[0][0] && r.likely == probabilities[0][1]
  {
    Assessment(LabelOf(prediction[0]), probabilities[0][0], probabilities[0][1])
  }

  /**
    One press of the predict button: encode, reshape to one row, ask the
    classifier for a class and for probabilities on that same batch, and
    read them.
   */
  function Assess(m: Classifier, a: Answers): (r: Assessment)
    requires Responds(m, [Encode(a)])
    ensures r.outcome == Unlikely <==> m.predict([Encode(a)])[0] == 0
    ensures r.unlikely == m.predictProba([Encode(a)])[0][0]
    ensures r.likely == m.predictProba([Encode(a)])[0][1]
  {
    var batch := InputBatch(a);
    Interpret(m.predict(batch), m.predictProba(batch))
  }

  /**
    The assessment depends on the classifier only through its two answers on
    the one batch [Encode(a)]: both calls see the same array, and no other
    input is ever submitted.
   */
  lemma AssessConsultsOneBatch(m1: Classifier, m2: Classifier, a: Answers)
    requires Responds(m1, [Encode(a)])
    requires m1.predict([Encode(a)]) == m2.predict([Encode(a)])
    requires m1.predictProba([Encode(a)]) == m2.predictProba([Encode(a)])
    ensures Responds(m2, [Encode(a)])
    ensures Assess(m1, a) == Assess(m2, a)
  {
  }

  /** The printed label agrees with the class through ClassOf whenever the classifier is binary. */
  lemma AssessLabelMatchesClass(m: Classifier, a: Answers)
    requires Responds(m, [Encode(a)])
    requires m.predict([Encode(a)])[0] in {0, 1}
    ensures ClassOf(Assess(m, a).outcome) == m.predict([Encode(a)])[0]
  {
  }
}

/** Label mapping of `analyze_review` and the colour choice of `display_result` and
    `analyze_reviews`. The tokenizer, the BERT model and the arg-max over its logits are
    one abstract classifier: a function from a review text to a class index. */
module Sentiment {

  /** The arg-max over the two logits of the binary classifier. */
  type ClassIndex = i: int | 0 <= i <= 1

  /** Tokenization, padding, truncation, `bert_model.predict` and `tf.argmax`, for one text. */
  type Classifier = string -> ClassIndex

  datatype Label = Negative | Positive

  /** The `label` dictionary of `analyze_review`: 0 is Negative and 1 is Positive. */
  function LabelOf(i: ClassIndex): (l: Label)
    ensures l == Positive <==> i == 1
    ensures IndexOf(l) == i
  {
    if i == 1 then Positive else Negative
  }

  /** The inverse of the dictionary. */
  function IndexOf(l: Label): (i: ClassIndex)
    ensures i == 1 <==> l == Positive
  {
    match l
    case Positive => 1
    case Negative => 0
  }

  /** The label as the string the source compares and displays. */
  function LabelName(l: Label): (name: string)
    ensures name == "Positive" || name == "Negative"
    ensures name == "Positive" <==> l == Positive
  {
    match l
    case Positive => "Positive"
    case Negative => "Negative"
  }

  /** What `analyze_review` accepts: one review text, or a list of texts. */
  datatype ReviewInput = Text(text: string) | Texts(texts: seq<string>)

  /** A non-list input is wrapped into a batch of one; a list is used as it is. */
  function AsBatch(input: ReviewInput): (batch: seq<string>)
    ensures input.Text? ==> |batch| == 1 && batch[0] == input.text
    ensures input.Texts? ==> batch == input.texts
  {
    match input
    case Text(t) => [t]
    case Texts(ts) => ts
  }

  /** The list comprehension over the predicted indices: one label per text, in order. */
  function PredictLabels(batch: seq<string>, classify: Classifier): (labels: seq<Label>)
    ensures |labels| == |batch|
    ensures forall k :: 0 <= k < |batch| ==> labels[k] == LabelOf(classify(batch[k]))
  {
    if batch == [] then []
    else [LabelOf(classify(batch[0]))] + PredictLabels(batch[1..], classify)
  }

  /** `analyze_review`: the label of the first text of the batch. An empty list would
      make the source index an empty list, so the batch must not be empty. */
  function AnalyzeReview(input: ReviewInput, classify: Classifier): (sentiment: Label)
    requires AsBatch(input) != []
    ensures sentiment == LabelOf(classify(AsBatch(input)[0]))
    ensures (sentiment == Positive) == (classify(AsBatch(input)[0]) == 1)
  {
    PredictLabels(AsBatch(input), classify)[0]
  }

  /** A single review text is classified on its own, and its label is Positive exactly
      when the classifier picks index 1 and Negative exactly when it picks index 0. */
  lemma AnalyzeSingleText(text: string, classify: Classifier)
    ensures AnalyzeReview(Text(text), classify) == Positive <==> classify(text) == 1
    ensures AnalyzeReview(Text(text), classify) == Negative <==> classify(text) == 0
    ensures LabelName(AnalyzeReview(Text(text), classify)) in {"Positive", "Negative"}
  {
  }

  /** The label of a batch depends on its first text only. */
  lemma AnalyzeBatchFirst(texts: seq<string>, classify: Classifier)
    requires texts != []
    ensures AnalyzeReview(Texts(texts), classify) == AnalyzeReview(Text(texts[0]), classify)
  {
  }

  datatype Colour = Green | Red

  /** The colour of a sentiment: green for Positive, red otherwise. */
  function ColourOf(sentiment: Label): (c: Colour)
    ensures c == Green <==> LabelName(sentiment) == "Positive"
    ensures c == Red <==> LabelName(sentiment) != "Positive"
  {
    if sentiment == Positive then Green else Red
  }

  /** The colour as the name written into the `font` tag. The result view keeps the
      colour itself, so this only pins down the two names the source writes. */
  function ColourName(c: Colour): (name: string)
    ensures name == "green" <==> c == Green
    ensures name == "red" <==> c == Red
  {
    match c
    case Green => "green"
    case Red => "red"
  }

  /** The colour shown for a review is green exactly when the classifier picked index 1. */
  lemma ColourOfClassIndex(text: string, classify: Classifier)
    ensures ColourOf(AnalyzeReview(Text(text), classify)) == Green <==> classify(text) == 1
    ensures ColourOf(AnalyzeReview(Text(text), classify)) == Red <==> classify(text) == 0
  {
  }
}
